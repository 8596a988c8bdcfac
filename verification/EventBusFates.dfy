/** What becomes of each publish call over a run, told from the bus alone, and exactly which resumed publishers
    disturb the order in which keys and their newest events leave. */
module EventBusFates {
  import opened Prelude
  import opened EventBusModel
  import opened EventBusRuns

  // ---- one step ----

  /** The step writes an event under this key: a publish that takes it, or a suspended put that finds room. */
  predicate Writes(w: World, a: Action, key: string)
    requires forall p :: p in w.ledger.blocked ==> w.ledger.blocked[p] < |w.ledger.log|
  {
    match a
    case PublishNow(pub) => TakesKey(w.bus, pub) && Key(pub) == key
    case PublishBegin(_, pub) => TakesKey(w.bus, pub) && Key(pub) == key
    case PublishFinish(p) => p in w.ledger.blocked && Key(w.ledger.log[w.ledger.blocked[p]]) == key
    case _ => false
  }

  /** The step hands this key's pending event to a consumer. */
  predicate HandsOut(w: World, a: Action, key: string) {
    match a
    case ServeAny(_) => key in w.bus.pending && key !in NextEvent(w.bus).0.pending
    case ServeTrading => key in w.bus.pending && key !in NextTrading(w.bus).0.pending
    case _ => false
  }

  /** How one step moves the fate of call i: a waiting event is superseded by a write under its key and delivered by
      a turn that hands the key out; a suspended call waits once it finishes; every other fate is final. */
  function NextFate(w: World, a: Action, i: nat): Fate
    requires i < |w.ledger.log| == |w.ledger.fate|
    requires forall p :: p in w.ledger.blocked ==> w.ledger.blocked[p] < |w.ledger.log|
  {
    match w.ledger.fate[i]
    case Waiting =>
      if Writes(w, a, Key(w.ledger.log[i])) then Superseded
      else if HandsOut(w, a, Key(w.ledger.log[i])) then Delivered(|w.ledger.delivered|)
      else Waiting
    case Blocked(p) => if a == PublishFinish(p) then Waiting else Blocked(p)
    case f => f
  }

  /** The fate a publish call starts with. */
  function FirstFate(b: BusState, a: Action, pub: Publication): Fate {
    if !Trades(pub) then LowPriority
    else if TakesKey(b, pub) then Waiting
    else if a.PublishBegin? then Blocked(a.publisher)
    else Dropped
  }

  lemma OwnMovesFates(l: Ledger, pending: map<string, Event>, j: nat, i: nat)
    requires Accounted(l, pending) && j < |l.log| && l.fate[j] == Dropped && i < |l.log|
    ensures Own(l, j).fate[i] ==
            if i == j then Waiting
            else if l.fate[i] == Waiting && Key(l.log[i]) == Key(l.log[j]) then Superseded
            else l.fate[i]
  {}

  lemma PublishedMovesFates(l: Ledger, pending: map<string, Event>, pub: Publication, own: bool, i: nat)
    requires Accounted(l, pending) && (own ==> Trades(pub)) && i <= |l.log|
    ensures var n := Published(l, pub, own);
      && n.log == l.log + [pub] && |n.fate| == |n.log|
      && n.fate[i] ==
           if i == |l.log| then (if own then Waiting else if Trades(pub) then Dropped else LowPriority)
           else if own && l.fate[i] == Waiting && Key(l.log[i]) == Key(pub) then Superseded
           else l.fate[i]
  {
    var s := MirrorEntry(Start(l, pub, if Trades(pub) then Dropped else LowPriority), |l.log|);
    StartKeepsBooks(l, pending, pub);
    assert Accounted(s, pending);
    assert s.log[|l.log|] == pub && s.fate[|l.log|] == if Trades(pub) then Dropped else LowPriority;
    assert i < |l.log| ==> s.fate[i] == l.fate[i] && s.log[i] == l.log[i];
    assert s.log == l.log + [pub] && |s.fate| == |s.log|;
    hide Accounted, Start, MirrorEntry;
    if own {
      OwnMovesFates(s, pending, |l.log|, i);
    }
  }

  lemma ReleasedFates(l: Ledger, pending: map<string, Event>, p: nat) returns (r: Ledger)
    requires Accounted(l, pending) && p in l.blocked
    ensures l.blocked[p] < |l.log| == |l.fate|
    ensures r == MirrorEntry(Release(l, p), l.blocked[p]) && Accounted(r, pending)
    ensures r.log == l.log && r.fate == l.fate[l.blocked[p] := Dropped]
  {
    ReleaseKeepsBooks(l, pending, p);
    r := MirrorEntry(Release(l, p), l.blocked[p]);
    assert Accounted(r, pending);
  }

  lemma FinishedMovesFates(l: Ledger, pending: map<string, Event>, p: nat, i: nat)
    requires Accounted(l, pending) && p in l.blocked && i < |l.log|
    ensures var j, n := l.blocked[p], Finished(l, p);
      && n.log == l.log && |n.fate| == |n.log|
      && n.fate[i] ==
           if i == j then Waiting
           else if l.fate[i] == Waiting && Key(l.log[i]) == Key(l.log[j]) then Superseded
           else l.fate[i]
  {
    var r := ReleasedFates(l, pending, p);
    hide Accounted, Release, MirrorEntry;
    OwnMovesFates(r, pending, l.blocked[p], i);
  }

  lemma HandMovesFates(l: Ledger, pending: map<string, Event>, k: string, i: nat)
    requires Accounted(l, pending) && k in pending && TradingKey(pending[k]) == k && i < |l.log|
    ensures var n := Hand(l, pending[k]);
      && n.log == l.log && |n.fate| == |n.log|
      && n.fate[i] == if l.fate[i] == Waiting && Key(l.log[i]) == k then Delivered(|l.delivered|) else l.fate[i]
  {}

  lemma BlockedIs(l: Ledger, pending: map<string, Event>, p: nat, i: nat)
    requires Accounted(l, pending) && i < |l.log| && p in l.blocked
    ensures l.fate[i] == Blocked(p) <==> i == l.blocked[p]
  {}

  lemma PublishMovesFates(w: World, pub: Publication, i: nat)
    requires Inv(w) && i <= |w.ledger.log|
    ensures var n := PublishAtOnce(w, pub).ledger;
      && n.log == w.ledger.log + [pub] && |n.fate| == |n.log|
      && n.fate[i] ==
           if i == |w.ledger.log| then (if TakesKey(w.bus, pub) then Waiting else if Trades(pub) then Dropped else LowPriority)
           else if TakesKey(w.bus, pub) && w.ledger.fate[i] == Waiting && Key(w.ledger.log[i]) == Key(pub) then Superseded
           else w.ledger.fate[i]
  {
    assert PublishAtOnce(w, pub).ledger == Published(w.ledger, pub, TakesKey(w.bus, pub)) by {
      hide Published, PublishNowait;
    }
    hide PublishAtOnce, Published, Awake, DeliveriesExact, MirroredOnce, Accounted;
    PublishedMovesFates(w.ledger, w.bus.pending, pub, TakesKey(w.bus, pub), i);
  }

  /** A turn of either consumer delivers the waiting call of the key it hands out. */
  lemma ServeMovesFates(w: World, b: BusState, e: Event, i: nat)
    requires Inv(w) && Served(w.bus, b, Some(e)) && i < |w.ledger.log|
    ensures var n := Handed(w, b, e).ledger;
      && n.log == w.ledger.log && |n.fate| == |n.log|
      && n.fate[i] == if w.ledger.fate[i] == Waiting && TradingKey(e) == Key(w.ledger.log[i])
                      then Delivered(|w.ledger.delivered|) else w.ledger.fate[i]
  {
    HandedIs(w, b, e);
    hide Handed, Awake, DeliveriesExact, MirroredOnce, Accounted, Hand;
    HandMovesFates(w.ledger, w.bus.pending, TradingKey(e), i);
  }

  /** A key leaves the pending events exactly when its event is the one handed out. */
  lemma LeavesWithEvent(b: BusState, next: BusState, e: Option<Event>, k: string)
    requires Served(b, next, e)
    ensures k in b.pending && k !in next.pending <==> e.Some? && TradingKey(e.value) == k
  {}

  /** A turn that handed out `given` moves call i as the keys that left say. */
  lemma TurnMovesFates(w: World, b: BusState, given: Option<Event>, i: nat, n: Ledger, a: Action)
    requires Inv(w) && i < |w.ledger.log| == |w.ledger.fate| && Served(w.bus, b, given)
    requires forall p :: p in w.ledger.blocked ==> w.ledger.blocked[p] < |w.ledger.log|
    requires n == if given.Some? then Handed(w, b, given.value).ledger else w.ledger
    requires (a.ServeAny? && b.pending == NextEvent(w.bus).0.pending) || (a.ServeTrading? && b.pending == NextTrading(w.bus).0.pending)
    ensures n.log == w.ledger.log && |n.fate| == |n.log| && n.fate[i] == NextFate(w, a, i)
  {
    hide NextEvent, NextTrading, Inv, Handed;
    LeavesWithEvent(w.bus, b, given, Key(w.ledger.log[i]));
    if given.Some? {
      ServeMovesFates(w, b, given.value, i);
    }
    hide Served;
  }

  lemma AnyMovesFates(w: World, c: nat, i: nat)
    requires Inv(w) && i < |w.ledger.log| == |w.ledger.fate|
    requires forall p :: p in w.ledger.blocked ==> w.ledger.blocked[p] < |w.ledger.log|
    ensures var n := ServeAnyTo(w, c).ledger;
      n.log == w.ledger.log && |n.fate| == |n.log| && n.fate[i] == NextFate(w, ServeAny(c), i)
  {
    AnyServed(w.bus);
    var (b, e) := NextEvent(w.bus);
    hide NextEvent, Inv, Handed, Served, NextFate;
    TurnMovesFates(w, b, if w.bus.pending != map[] then e else None, i, ServeAnyTo(w, c).ledger, ServeAny(c));
  }

  lemma FatesMatchLog(w: World)
    requires Inv(w)
    ensures |w.ledger.fate| == |w.ledger.log|
    ensures forall p :: p in w.ledger.blocked ==> w.ledger.blocked[p] < |w.ledger.log|
  {}

  lemma TradingMovesFates(w: World, i: nat)
    requires Inv(w) && i < |w.ledger.log| == |w.ledger.fate|
    requires forall p :: p in w.ledger.blocked ==> w.ledger.blocked[p] < |w.ledger.log|
    ensures var n := ServeTradingOnce(w).ledger;
      n.log == w.ledger.log && |n.fate| == |n.log| && n.fate[i] == NextFate(w, ServeTrading, i)
  {
    TradingServed(w.bus);
    var (b, e) := NextTrading(w.bus);
    hide NextTrading, Inv, Handed, Served, NextFate;
    TurnMovesFates(w, b, e, i, ServeTradingOnce(w).ledger, ServeTrading);
  }

  lemma FinishMovesFates(w: World, p: nat, i: nat)
    requires Inv(w) && Enabled(w, PublishFinish(p)) && i < |w.ledger.log|
    ensures var n := FinishPublish(w, p).ledger;
      n.log == w.ledger.log && |n.fate| == |n.log| && n.fate[i] == NextFate(w, PublishFinish(p), i)
  {
    FinishedMovesFates(w.ledger, w.bus.pending, p, i);
    BlockedIs(w.ledger, w.bus.pending, p, i);
    BlockedDistinct(w.ledger, w.bus.pending, i);
    hide Inv, Finished, Enqueue, Accounted;
  }

  lemma BlockedDistinct(l: Ledger, pending: map<string, Event>, i: nat)
    requires Accounted(l, pending) && i < |l.log|
    ensures l.fate[i].Blocked? ==> l.fate[i].publisher in l.blocked && l.blocked[l.fate[i].publisher] == i
  {}

  lemma BlockMovesFates(w: World, p: nat, pub: Publication, i: nat)
    requires Inv(w) && i < |w.ledger.log| && MustBlock(w.bus, pub)
    ensures var n := StartBlocked(w.ledger, pub, p);
      i < |n.log| == |n.fate| && n.log[i] == w.ledger.log[i] && n.fate[i] == NextFate(w, PublishBegin(p, pub), i)
  {
    FatesMatchLog(w);
    hide Inv;
  }

  lemma TakenMovesFates(w: World, a: Action, i: nat)
    requires Inv(w) && i < |w.ledger.log| && Publishes(a)
    ensures var n := PublishAtOnce(w, a.pub).ledger;
      i < |n.log| == |n.fate| && n.log[i] == w.ledger.log[i]
      && (a.PublishNow? || !MustBlock(w.bus, a.pub) ==> n.fate[i] == NextFate(w, a, i))
  {
    FatesMatchLog(w);
    hide Inv, PublishAtOnce;
    PublishMovesFates(w, a.pub, i);
  }

  lemma LowMovesFates(w: World, a: Action, i: nat)
    requires a.ServeMaintenance? || a.ServePersistence? || a.PauseLow? || a.ResumeLow?
    requires Inv(w) && i < |w.ledger.log|
    ensures Step(w, a).ledger == w.ledger && |w.ledger.fate| == |w.ledger.log| && w.ledger.fate[i] == NextFate(w, a, i)
  {
    FatesMatchLog(w);
    LowStepsKeepLane(w, a);
    hide Inv, Step;
  }

  /** Every step moves the fate of every call as the bus says. */
  lemma StepMovesFates(w: World, a: Action, i: nat)
    requires Inv(w) && Enabled(w, a) && i < |w.ledger.log|
    ensures var n := Step(w, a).ledger;
      i < |n.log| == |n.fate| && n.log[i] == w.ledger.log[i] && n.fate[i] == NextFate(w, a, i)
  {
    FatesMatchLog(w);
    hide Inv, PublishAtOnce, FinishPublish, ServeAnyTo, ServeTradingOnce, StartBlocked, NextFate;
    match a
    case PublishNow(pub) => TakenMovesFates(w, a, i);
    case PublishBegin(p, pub) =>
      if MustBlock(w.bus, pub) {
        BlockMovesFates(w, p, pub, i);
      } else {
        TakenMovesFates(w, a, i);
      }
    case PublishFinish(p) => FinishMovesFates(w, p, i);
    case ServeAny(c) => AnyMovesFates(w, c, i);
    case ServeTrading => TradingMovesFates(w, i);
    case _ => LowMovesFates(w, a, i);
  }

  predicate Publishes(a: Action) { a.PublishNow? || a.PublishBegin? }

  /** A publish call starts waiting if it takes its key, blocked or dropped if it must wait for room, and nowhere in
      the trading lane otherwise; in particular it is dropped exactly when it may not block and must. */
  lemma StepStartsFate(w: World, a: Action)
    requires Inv(w) && Enabled(w, a) && Publishes(a)
    ensures var n := Step(w, a).ledger;
      && n.log == w.ledger.log + [a.pub] && |n.fate| == |n.log|
      && n.fate[|w.ledger.log|] == FirstFate(w.bus, a, a.pub)
      && (n.fate[|w.ledger.log|] == Dropped <==> a.PublishNow? && MustBlock(w.bus, a.pub))
  {
    if a.PublishNow? || !MustBlock(w.bus, a.pub) {
      PublishMovesFates(w, a.pub, |w.ledger.log|);
      assert Step(w, a).ledger == PublishAtOnce(w, a.pub).ledger;
      hide PublishAtOnce, Step, Inv;
    } else {
      hide Inv;
    }
  }

  // ---- whole runs ----

  /** What first happens to a key on a run. */
  datatype Touch = Untouched | Overwritten | HandedOut

  ghost function FirstTouch(w: World, run: seq<Action>, key: string): Touch
    requires Inv(w) && Legal(w, run)
    decreases |run|
  {
    if run == [] then Untouched
    else if Writes(w, run[0], key) then Overwritten
    else if HandsOut(w, run[0], key) then HandedOut
    else
      StepKeepsInv(w, run[0]);
      FirstTouch(Step(w, run[0]), run[1..], key)
  }

  predicate Matches(f: Fate, t: Touch) {
    match t
    case Untouched => f == Waiting
    case Overwritten => f == Superseded
    case HandedOut => f.Delivered?
  }

  predicate Final(f: Fate) { f.Delivered? || f == Superseded || f == Dropped || f == LowPriority }

  lemma RunsOn(w: World, run: seq<Action>, i: nat) returns (next: World)
    requires Inv(w) && Legal(w, run) && run != [] && i < |w.ledger.log|
    ensures |w.ledger.fate| == |w.ledger.log| && (forall p :: p in w.ledger.blocked ==> w.ledger.blocked[p] < |w.ledger.log|)
    ensures w.bus.retainedCapacity > 0 && Enabled(w, run[0]) && next == Step(w, run[0])
    ensures Inv(next) && Legal(next, run[1..]) && Run(w, run) == Run(next, run[1..])
    ensures i < |next.ledger.log| == |next.ledger.fate| && next.ledger.log[i] == w.ledger.log[i]
    ensures next.ledger.fate[i] == NextFate(w, run[0], i)
  {
    StepKeepsInv(w, run[0]);
    next := Step(w, run[0]);
    StepMovesFates(w, run[0], i);
    hide Step, NextFate;
  }

  lemma FinalMoves(w: World, a: Action, i: nat)
    requires i < |w.ledger.log| == |w.ledger.fate| && Final(w.ledger.fate[i])
    requires forall p :: p in w.ledger.blocked ==> w.ledger.blocked[p] < |w.ledger.log|
    ensures NextFate(w, a, i) == w.ledger.fate[i]
  {
    hide Writes, HandsOut;
  }

  lemma WaitingMoves(w: World, a: Action, i: nat)
    requires i < |w.ledger.log| == |w.ledger.fate| && w.ledger.fate[i] == Waiting
    requires forall p :: p in w.ledger.blocked ==> w.ledger.blocked[p] < |w.ledger.log|
    ensures var k, f := Key(w.ledger.log[i]), NextFate(w, a, i);
      && (f == Waiting || Final(f)) && (f == Waiting <==> !Writes(w, a, k) && !HandsOut(w, a, k))
      && (Writes(w, a, k) ==> Matches(f, Overwritten))
      && (!Writes(w, a, k) && HandsOut(w, a, k) ==> Matches(f, HandedOut))
    ensures forall f: Fate :: f == Waiting ==> Matches(f, Untouched)
  {
    hide Writes, HandsOut;
  }

  lemma BlockedMoves(w: World, a: Action, i: nat, p: nat)
    requires i < |w.ledger.log| == |w.ledger.fate| && w.ledger.fate[i] == Blocked(p)
    requires forall p :: p in w.ledger.blocked ==> w.ledger.blocked[p] < |w.ledger.log|
    ensures NextFate(w, a, i) == if a == PublishFinish(p) then Waiting else Blocked(p)
  {
    hide Writes, HandsOut;
  }

  lemma TouchesOn(w: World, run: seq<Action>, key: string)
    requires Inv(w) && Legal(w, run) && run != []
    requires Inv(Step(w, run[0])) && Legal(Step(w, run[0]), run[1..])
    ensures FirstTouch(w, run, key) ==
            if Writes(w, run[0], key) then Overwritten
            else if HandsOut(w, run[0], key) then HandedOut
            else FirstTouch(Step(w, run[0]), run[1..], key)
  {}

  /** Delivered, superseded, dropped and low-priority are final. */
  lemma {:induction false} FinalStays(w: World, run: seq<Action>, i: nat)
    requires Inv(w) && Legal(w, run) && i < |w.ledger.log| && Final(w.ledger.fate[i])
    ensures i < |Run(w, run).ledger.log| && Run(w, run).ledger.log[i] == w.ledger.log[i]
    ensures Run(w, run).ledger.fate[i] == w.ledger.fate[i]
    decreases |run|
  {
    if run != [] {
      var next := RunsOn(w, run, i);
      hide *;
      assert next.ledger.fate[i] == w.ledger.fate[i] by { FinalMoves(w, run[0], i); }
      FinalStays(next, run[1..], i);
    }
  }

  /** A waiting call ends superseded, delivered or still waiting according to what first happens to its key. */
  lemma {:induction false} WaitingEnds(w: World, run: seq<Action>, i: nat)
    requires Inv(w) && Legal(w, run) && i < |w.ledger.log| && w.ledger.fate[i] == Waiting
    ensures i < |Run(w, run).ledger.log|
    ensures Matches(Run(w, run).ledger.fate[i], FirstTouch(w, run, Key(w.ledger.log[i])))
    decreases |run|
  {
    if run != [] {
      var next := RunsOn(w, run, i);
      TouchesOn(w, run, Key(w.ledger.log[i]));
      WaitingMoves(w, run[0], i);
      hide *;
      if next.ledger.fate[i] == Waiting {
        WaitingEnds(next, run[1..], i);
      } else {
        FinalStays(next, run[1..], i);
      }
    }
  }

  /** What happens to a key after publisher p has finished, if it does. */
  ghost function TouchAfterFinish(w: World, run: seq<Action>, p: nat, key: string): Option<Touch>
    requires Inv(w) && Legal(w, run)
    decreases |run|
  {
    if run == [] then None
    else
      StepKeepsInv(w, run[0]);
      if run[0] == PublishFinish(p) then Some(FirstTouch(Step(w, run[0]), run[1..], key))
      else TouchAfterFinish(Step(w, run[0]), run[1..], p, key)
  }

  lemma TouchesAfterFinish(w: World, run: seq<Action>, p: nat, key: string)
    requires Inv(w) && Legal(w, run) && run != []
    requires Inv(Step(w, run[0])) && Legal(Step(w, run[0]), run[1..])
    ensures TouchAfterFinish(w, run, p, key) ==
            if run[0] == PublishFinish(p) then Some(FirstTouch(Step(w, run[0]), run[1..], key))
            else TouchAfterFinish(Step(w, run[0]), run[1..], p, key)
  {}

  lemma {:induction false} BlockedEnds(w: World, run: seq<Action>, i: nat, p: nat)
    requires Inv(w) && Legal(w, run) && i < |w.ledger.log| && w.ledger.fate[i] == Blocked(p)
    ensures i < |Run(w, run).ledger.log|
    ensures match TouchAfterFinish(w, run, p, Key(w.ledger.log[i]))
            case None => Run(w, run).ledger.fate[i] == Blocked(p)
            case Some(t) => Matches(Run(w, run).ledger.fate[i], t)
    decreases |run|
  {
    if run != [] {
      var next := RunsOn(w, run, i);
      TouchesAfterFinish(w, run, p, Key(w.ledger.log[i]));
      hide *;
      BlockedMoves(w, run[0], i, p);
      if run[0] == PublishFinish(p) {
        WaitingEnds(next, run[1..], i);
      } else {
        BlockedEnds(next, run[1..], i, p);
      }
    }
  }

  /** How a call ends that has this fate now. */
  ghost predicate EndsAs(w: World, run: seq<Action>, i: nat, f: Fate)
    requires Inv(w) && Legal(w, run) && i < |w.ledger.log| == |w.ledger.fate|
  {
    match w.ledger.fate[i]
    case Waiting => Matches(f, FirstTouch(w, run, Key(w.ledger.log[i])))
    case Blocked(p) =>
      (match TouchAfterFinish(w, run, p, Key(w.ledger.log[i]))
       case None => f == Blocked(p)
       case Some(t) => Matches(f, t))
    case _ => f == w.ledger.fate[i]
  }

  lemma CallEnds(w: World, run: seq<Action>, i: nat)
    requires Inv(w) && Legal(w, run) && i < |w.ledger.log|
    ensures |w.ledger.fate| == |w.ledger.log|
    ensures i < |Run(w, run).ledger.log| == |Run(w, run).ledger.fate| && Run(w, run).ledger.log[i] == w.ledger.log[i]
    ensures EndsAs(w, run, i, Run(w, run).ledger.fate[i])
  {
    FatesMatchLog(w);
    LogStays(w, run, i);
    FatesMatchLog(Run(w, run));
    hide Inv, Run, Legal, FirstTouch, TouchAfterFinish, Matches;
    if w.ledger.fate[i] == Waiting {
      WaitingEnds(w, run, i);
    } else if w.ledger.fate[i].Blocked? {
      BlockedEnds(w, run, i, w.ledger.fate[i].publisher);
    } else {
      FinalStays(w, run, i);
    }
  }

  /** The fate of the call a run starts with, read off the bus: low-priority or dropped at once - dropped exactly when
      it could not block and had to - and otherwise superseded, delivered or waiting by what first happens to its key
      once its event is written, or blocked as long as its publisher has not finished. */
  lemma EveryCallsFate(w: World, run: seq<Action>)
    requires Inv(w) && Legal(w, run) && run != [] && Publishes(run[0])
    ensures var i, pub, after := |w.ledger.log|, run[0].pub, Step(w, run[0]);
      && Inv(after) && Legal(after, run[1..]) && i < |after.ledger.log| == |after.ledger.fate|
      && i < |Run(w, run).ledger.log| == |Run(w, run).ledger.fate| && Run(w, run).ledger.log[i] == pub
      && after.ledger.log[i] == pub && after.ledger.fate[i] == FirstFate(w.bus, run[0], pub)
      && (after.ledger.fate[i] == Dropped <==> run[0].PublishNow? && MustBlock(w.bus, pub))
      && EndsAs(after, run[1..], i, Run(w, run).ledger.fate[i])
  {
    StepKeepsInv(w, run[0]);
    StepStartsFate(w, run[0]);
    var after := Step(w, run[0]);
    assert Run(w, run) == Run(after, run[1..]);
    hide Inv, Run, Legal, Step, EndsAs, FirstFate, MustBlock, Enabled;
    CallEnds(after, run[1..], |w.ledger.log|);
  }

  lemma {:induction false} LogStays(w: World, run: seq<Action>, i: nat)
    requires Inv(w) && Legal(w, run) && i < |w.ledger.log|
    ensures i < |Run(w, run).ledger.log| && Run(w, run).ledger.log[i] == w.ledger.log[i]
    decreases |run|
  {
    if run != [] {
      StepKeepsInv(w, run[0]);
      StepMovesFates(w, run[0], i);
      hide Step, NextFate;
      LogStays(Step(w, run[0]), run[1..], i);
    }
  }

  // ---- which resumed publishers disturb the order ----

  /** Writing under a key leaves one ticket a key exactly when the key was free. */
  lemma EnqueueOneTicketExactly(b: BusState, pub: Publication)
    requires OneTicketEach(b)
    ensures OneTicketEach(Enqueue(b, pub)) <==> Key(pub) !in b.pending
  {
    var n := Enqueue(b, pub);
    assert n.tickets[|b.tickets|] == Key(pub);
    if Key(pub) in b.pending {
      var i :| 0 <= i < |b.tickets| && b.tickets[i] == Key(pub);
      assert n.tickets[i] == n.tickets[|b.tickets|];
    } else {
      forall k | k in n.pending ensures k in n.tickets {
        if k != Key(pub) {
          var i :| 0 <= i < |b.tickets| && b.tickets[i] == k;
          assert n.tickets[i] == k;
        }
      }
    }
  }

  /** A resumed publisher leaves the newest event pending under every key exactly when nothing was published under
      its key since it started. */
  lemma FinishLatestExactly(l: Ledger, p: nat)
    requires LatestWins(l) && |l.fate| == |l.log| && p in l.blocked && l.blocked[p] < |l.log|
    ensures LatestWins(Finished(l, p)) <==> Silent(l.log, Key(l.log[l.blocked[p]]), l.blocked[p] + 1, |l.log|)
  {
    var i, n := l.blocked[p], Finished(l, p);
    assert n.log == l.log && n.owner == l.owner[Key(l.log[i]) := i];
    hide Finished, Silent;
    assert n.owner[Key(l.log[i])] == i;
  }

  ghost predicate AllBelow(s: seq<nat>, i: nat) {
    forall j :: 0 <= j < |s| ==> s[j] < i
  }

  /** And it keeps tickets in the order of their calls exactly when it started after every call that has had one. */
  lemma FinishOrderExactly(w: World, p: nat)
    requires Inv(w) && FirstComeFirstServed(w) && Enabled(w, PublishFinish(p))
    ensures FirstComeFirstServed(FinishPublish(w, p)) <==> AllBelow(w.servedBirths + w.births, w.ledger.blocked[p])
  {
    var i, n, before := w.ledger.blocked[p], FinishPublish(w, p), w.servedBirths + w.births;
    assert i < |w.ledger.log|;
    assert n.ledger.log == w.ledger.log && n.ledger.delivered == w.ledger.delivered
        && n.bus.tickets == w.bus.tickets + [Key(w.ledger.log[i])] && n.births == w.births + [i] && n.servedBirths == w.servedBirths;
    assert n.servedBirths + n.births == before + [i];
    hide Inv, FinishPublish;
    IncreasingAppend(before, i);
    hide Increasing, AllBelow;
  }

  lemma IncreasingAppend(s: seq<nat>, i: nat)
    requires Increasing(s)
    ensures Increasing(s + [i]) <==> AllBelow(s, i)
  {
    if Increasing(s + [i]) {
      forall j | 0 <= j < |s| ensures s[j] < i {
        assert (s + [i])[j] == s[j] && (s + [i])[|s|] == i;
      }
    }
  }

  /** The resumed publisher finds its key free and nothing published under it since, and no later call had a ticket. */
  ghost predicate Timely(w: World, p: nat)
    requires p in w.ledger.blocked && w.ledger.blocked[p] < |w.ledger.log|
  {
    var i := w.ledger.blocked[p];
    && Key(w.ledger.log[i]) !in w.bus.pending
    && Silent(w.ledger.log, Key(w.ledger.log[i]), i + 1, |w.ledger.log|)
    && AllBelow(w.servedBirths + w.births, i)
  }

  lemma FinishOrderlyExactly(w: World, p: nat)
    requires Inv(w) && Orderly(w) && Enabled(w, PublishFinish(p))
    ensures p in w.ledger.blocked && w.ledger.blocked[p] < |w.ledger.log|
    ensures Orderly(FinishPublish(w, p)) <==> Timely(w, p)
  {
    EnqueueOneTicketExactly(w.bus, w.ledger.log[w.ledger.blocked[p]]);
    FinishLatestExactly(w.ledger, p);
    FinishOrderExactly(w, p);
    var n := FinishPublish(w, p);
    assert n.bus == Enqueue(w.bus, w.ledger.log[w.ledger.blocked[p]]) && n.ledger == Finished(w.ledger, p);
    hide Inv, FinishPublish, Enqueue, Finished, Silent, AllBelow, OneTicketEach, FirstComeFirstServed, LatestWins;
  }

  lemma StartBlockedKeepsLatest(l: Ledger, pub: Publication, p: nat)
    requires LatestWins(l) && Key(pub) !in l.owner
    ensures LatestWins(StartBlocked(l, pub, p))
  {
    StartKeepsLatest(l, pub, Blocked(p));
    hide Silent;
  }

  lemma PendingIsOwned(w: World, k: string)
    requires Inv(w)
    ensures k in w.ledger.owner <==> k in w.bus.pending
  {}

  /** A publisher that suspends disturbs nothing: its key was not pending. */
  lemma BlockKeepsOrderly(w: World, p: nat, pub: Publication)
    requires Inv(w) && Orderly(w) && MustBlock(w.bus, pub)
    ensures Orderly(w.(ledger := StartBlocked(w.ledger, pub, p)))
  {
    hide Inv, LatestWins, OneTicketEach, FirstComeFirstServed;
    PendingIsOwned(w, Key(pub));
    StartBlockedKeepsLatest(w.ledger, pub, p);
    PublishKeepsOrder(w, w.(ledger := StartBlocked(w.ledger, pub, p)), pub);
  }

  /** Of all steps only a resumed publisher can disturb the order, and it does exactly when it is not timely. */
  lemma StepOrderlyExactly(w: World, a: Action)
    requires Inv(w) && Orderly(w) && Enabled(w, a)
    ensures a.PublishFinish? ==> a.publisher in w.ledger.blocked && w.ledger.blocked[a.publisher] < |w.ledger.log|
    ensures Orderly(Step(w, a)) <==> (a.PublishFinish? ==> Timely(w, a.publisher))
  {
    hide Orderly, Timely;
    match a
    case PublishNow(pub) => PublishKeepsOrderly(w, pub);
    case PublishBegin(p, pub) =>
      if MustBlock(w.bus, pub) {
        BlockKeepsOrderly(w, p, pub);
      } else {
        PublishKeepsOrderly(w, pub);
      }
    case PublishFinish(p) => FinishOrderlyExactly(w, p);
    case ServeAny(c) => ServeKeepsOrderly(w, c);
    case ServeTrading => ServeKeepsOrderly(w, 0);
    case _ => LowStepsKeepOrderly(w, a);
  }

  lemma LowStepsKeepOrderly(w: World, a: Action)
    requires a.ServeMaintenance? || a.ServePersistence? || a.PauseLow? || a.ResumeLow?
    requires Inv(w) && Orderly(w)
    ensures Orderly(Step(w, a))
  {
    LowStepsKeepLane(w, a);
    hide Step, Inv, LatestWins;
  }

  ghost predicate OrderlyThroughout(w: World, run: seq<Action>)
    requires Inv(w) && Legal(w, run)
    decreases |run|
  {
    Orderly(w) && (run != [] ==> (StepKeepsInv(w, run[0]); OrderlyThroughout(Step(w, run[0]), run[1..])))
  }

  ghost predicate TimelyThroughout(w: World, run: seq<Action>)
    requires Inv(w) && Legal(w, run)
    decreases |run|
  {
    run != [] ==>
      && (run[0].PublishFinish? ==> Timely(w, run[0].publisher))
      && (StepKeepsInv(w, run[0]); TimelyThroughout(Step(w, run[0]), run[1..]))
  }

  /** From a fresh bus, or any world as orderly, and with any publishers, the trading lane stays a first-come queue of
      distinct keys holding and delivering the newest events at every point of a run if and only if every suspended
      publisher that resumes on it is timely. */
  lemma {:induction false} RunOrderlyExactly(w: World, run: seq<Action>)
    requires Inv(w) && Orderly(w) && Legal(w, run)
    ensures OrderlyThroughout(w, run) <==> TimelyThroughout(w, run)
    decreases |run|
  {
    if run != [] {
      StepKeepsInv(w, run[0]);
      StepOrderlyExactly(w, run[0]);
      hide Orderly, Step;
      if Orderly(Step(w, run[0])) {
        RunOrderlyExactly(Step(w, run[0]), run[1..]);
      }
    }
  }
}
