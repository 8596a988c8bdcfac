/** Threads writing to the registry. A write takes its market's shard lock or gives up, commits,
    tells the listeners after the commit lock is gone but still under the shard lock, and releases. */
module RegistryThreads {
  import opened Prelude
  import opened Markets
  import opened RegistryModel

  datatype Phase =
    | Idle
    | Waiting(k: Commit)
    | Holding(k: Commit)
    | Committed(k: Commit, notice: Option<Notice>)

  datatype System = System(
    registry: Registry,
    threads: map<nat, Phase>,
    holder: map<string, nat>,  // shard lock -> the thread that holds it
    log: seq<Notice>           // what the listeners have been told
  )

  datatype Action =
    | Begin(k: Commit)
    | Acquire
    | TimeOut
    | DoCommit
    | Notify
    | Release

  function Shard(k: Commit): string {
    match k
    case Upserted(m, _) => m.conditionId
    case Updated(c, _) => c
    case Removed(c) => c
  }

  function PhaseOf(s: System, t: nat): Phase {
    if t in s.threads then s.threads[t] else Idle
  }

  predicate Enabled(s: System, t: nat, a: Action) {
    var p := PhaseOf(s, t);
    match a
    case Begin(_) => p.Idle?
    case Acquire => p.Waiting? && Shard(p.k) !in s.holder
    case TimeOut => p.Waiting? && Shard(p.k) in s.holder
    case DoCommit => p.Holding?
    case Notify => p.Committed? && p.notice.Some?
    case Release => p.Committed? && p.notice.None?
  }

  function Advance(s: System, t: nat, a: Action): System
    requires Enabled(s, t, a)
  {
    var p := PhaseOf(s, t);
    match a
    case Begin(k) => s.(threads := s.threads[t := Waiting(k)])
    case Acquire => s.(threads := s.threads[t := Holding(p.k)], holder := s.holder[Shard(p.k) := t])
    case TimeOut => s.(threads := s.threads[t := Idle])
    case DoCommit => s.(registry := Step(s.registry, p.k), threads := s.threads[t := Committed(p.k, NoticeOf(s.registry, p.k))])
    case Notify => s.(threads := s.threads[t := Committed(p.k, None)], log := s.log + [p.notice.value])
    case Release => s.(threads := s.threads[t := Idle], holder := s.holder - {Shard(p.k)})
  }

  // ---- one market's notices ----

  function About(log: seq<Notice>, c: string): seq<Notice> {
    if log == [] then []
    else
      var before := About(log[..|log| - 1], c);
      if log[|log| - 1].conditionId == c then before + [log[|log| - 1]] else before
  }

  lemma AboutAppends(log: seq<Notice>, n: Notice, c: string)
    ensures About(log + [n], c) == if n.conditionId == c then About(log, c) + [n] else About(log, c)
  {
    assert (log + [n])[..|log|] == log;
  }

  /** Added, pruned, added, ... and each pruned names the companion its added named. */
  ghost predicate Alternates(notices: seq<Notice>) {
    forall j :: 0 <= j < |notices| ==>
      && (notices[j].Added? <==> j % 2 == 0)
      && (notices[j].Pruned? ==> j > 0 && notices[j].companion == notices[j - 1].companion)
  }

  /** The listeners were last told that this companion began. */
  ghost predicate LastAdded(notices: seq<Notice>, companion: nat) {
    |notices| > 0 && notices[|notices| - 1].Added? && notices[|notices| - 1].companion == companion
  }

  /** The listeners were told nothing yet, or last told of an end. */
  ghost predicate NotLive(notices: seq<Notice>) {
    notices == [] || notices[|notices| - 1].Pruned?
  }

  // ---- the invariant ----

  /** A shard lock is held by exactly the thread that is past acquiring it. */
  ghost predicate LocksHeld(s: System) {
    && (forall c :: c in s.holder ==>
          var p := PhaseOf(s, s.holder[c]); (p.Holding? || p.Committed?) && Shard(p.k) == c)
    && (forall t :: t in s.threads && (s.threads[t].Holding? || s.threads[t].Committed?) ==>
          Shard(s.threads[t].k) in s.holder && s.holder[Shard(s.threads[t].k)] == t)
  }

  /** The thread that has committed a change to c but not yet told the listeners, if any. */
  function PendingNotice(s: System, c: string): Option<Notice> {
    if c in s.holder && PhaseOf(s, s.holder[c]).Committed? then PhaseOf(s, s.holder[c]).notice else None
  }

  /** The companion of a tracked market. */
  function Live(r: Registry, c: string): Option<nat> {
    if r.Tracks(c) && c in r.companions then Some(r.companions[c]) else None
  }

  /** What the listeners were told, completed by the notice still due, is the market's state. */
  ghost predicate InStep(told: seq<Notice>, due: Option<Notice>, live: Option<nat>, c: string) {
    && Alternates(told)
    && match due
       case None => (match live case Some(id) => LastAdded(told, id) case None => NotLive(told))
       case Some(Added(d, id)) => d == c && NotLive(told) && live == Some(id)
       case Some(Pruned(d, id)) => d == c && LastAdded(told, id) && live == None
  }

  ghost predicate MarketInStep(s: System, c: string) {
    InStep(About(s.log, c), PendingNotice(s, c), Live(s.registry, c), c)
  }

  ghost predicate Inv(s: System) {
    Coherent(s.registry) && IndexSound(s.registry) && LocksHeld(s) && forall c :: MarketInStep(s, c)
  }

  function Init(): System { System(EMPTY, map[], map[], []) }

  lemma InitHolds()
    ensures Inv(Init())
  {}

  /** What a commit does to the markets and companions, whatever it does to the indexes. */
  lemma CommitLives(r: Registry, k: Commit, c: string)
    requires Coherent(r)
    ensures Live(Step(r, k), c) ==
      match k
      case Upserted(m, _) =>
        if c != m.conditionId || m.conditionId in r.companions then Live(r, c) else Some(r.nextCompanion)
      case Updated(_, _) => Live(r, c)
      case Removed(d) => if c == d then None else Live(r, c)
  {
    hide ReindexField, DetachKeys, KeysOf;
    match k
    case Upserted(m, now) => assert Reindex(r, m).markets == r.markets.Put(m.conditionId, m);
    case Updated(d, u) =>
      if r.Tracks(d) {
        var m := Apply(r.markets.items[d], u);
        assert m.conditionId == d;
        hide Apply;
        assert Reindex(r, m).markets == r.markets.Put(d, m);
      }
    case Removed(d) =>
  }

  /** A commit leaves every other market, and its companion, alone. */
  lemma CommitIsLocal(r: Registry, k: Commit, c: string)
    requires Coherent(r) && c != Shard(k)
    ensures Live(Step(r, k), c) == Live(r, c)
  {
    hide Coherent, Step, Live;
    CommitLives(r, k, c);
  }

  /** On its own market a commit changes the state exactly as its notice says. */
  lemma CommitMatchesNotice(r: Registry, k: Commit)
    requires Coherent(r)
    ensures var c := Shard(k);
      match NoticeOf(r, k)
      case None => Live(Step(r, k), c) == Live(r, c)
      case Some(Added(d, id)) => d == c && Live(r, c) == None && Live(Step(r, k), c) == Some(id)
      case Some(Pruned(d, id)) => d == c && Live(r, c) == Some(id) && Live(Step(r, k), c) == None
  {
    hide Step;
    CommitLives(r, k, Shard(k));
  }

  /** Telling the listeners the notice that is due keeps the alternation. */
  lemma TellingKeepsInStep(told: seq<Notice>, n: Notice, live: Option<nat>, c: string)
    requires InStep(told, Some(n), live, c)
    ensures InStep(told + [n], None, live, c) && n.conditionId == c
  {}

  lemma LocksStay(s: System, t: nat, a: Action)
    requires LocksHeld(s) && Enabled(s, t, a)
    ensures LocksHeld(Advance(s, t, a))
  {}

  /** A commit that changes the state as its notice says leaves the notice due. */
  lemma CommitOwes(told: seq<Notice>, before: Option<nat>, notice: Option<Notice>, after: Option<nat>, c: string)
    requires InStep(told, None, before, c)
    requires match notice
             case None => after == before
             case Some(Added(d, id)) => d == c && before == None && after == Some(id)
             case Some(Pruned(d, id)) => d == c && before == Some(id) && after == None
    ensures InStep(told, notice, after, c)
  {}

  lemma CommitKeepsInStep(s: System, t: nat, c: string)
    requires LocksHeld(s) && Coherent(s.registry) && Enabled(s, t, DoCommit) && MarketInStep(s, c)
    ensures MarketInStep(Advance(s, t, DoCommit), c)
  {
    hide InStep, Alternates, NotLive, LastAdded, Coherent, Live, Step, NoticeOf;
    var k := PhaseOf(s, t).k;
    var n := Advance(s, t, DoCommit);
    if c != Shard(k) {
      CommitIsLocal(s.registry, k, c);
      assert PendingNotice(n, c) == PendingNotice(s, c);
    } else {
      CommitMatchesNotice(s.registry, k);
      assert PendingNotice(s, c) == None && PendingNotice(n, c) == NoticeOf(s.registry, k);
      CommitOwes(About(s.log, c), Live(s.registry, c), NoticeOf(s.registry, k), Live(Step(s.registry, k), c), c);
    }
  }

  lemma NotifyKeepsInStep(s: System, t: nat, c: string)
    requires LocksHeld(s) && Enabled(s, t, Notify) && MarketInStep(s, c)
    requires MarketInStep(s, Shard(PhaseOf(s, t).k))
    ensures MarketInStep(Advance(s, t, Notify), c)
  {
    var n := PhaseOf(s, t).notice.value;
    var own := Shard(PhaseOf(s, t).k);
    assert PendingNotice(s, own) == Some(n);
    TellingKeepsInStep(About(s.log, own), n, Live(s.registry, own), own);
    AboutAppends(s.log, n, c);
    if c == own {
      assert PendingNotice(Advance(s, t, Notify), c) == None;
    } else {
      assert PendingNotice(Advance(s, t, Notify), c) == PendingNotice(s, c);
    }
  }

  lemma LockStepsKeepInStep(s: System, t: nat, a: Action, c: string)
    requires LocksHeld(s) && Enabled(s, t, a) && MarketInStep(s, c) && !a.DoCommit? && !a.Notify?
    ensures MarketInStep(Advance(s, t, a), c)
  {
    assert PendingNotice(Advance(s, t, a), c) == PendingNotice(s, c);
  }

  lemma StepKeepsInv(s: System, t: nat, a: Action)
    requires Inv(s) && Enabled(s, t, a)
    ensures Inv(Advance(s, t, a))
  {
    LocksStay(s, t, a);
    if a.DoCommit? {
      StepKeeps(s.registry, PhaseOf(s, t).k);
    }
    forall c ensures MarketInStep(Advance(s, t, a), c) {
      assert MarketInStep(s, c);
      if a.DoCommit? {
        CommitKeepsInStep(s, t, c);
      } else if a.Notify? {
        assert MarketInStep(s, Shard(PhaseOf(s, t).k));
        NotifyKeepsInStep(s, t, c);
      } else {
        LockStepsKeepInStep(s, t, a, c);
      }
    }
  }

  // ---- one writer a market ----

  /** A commit is about this market. */
  predicate Concerns(k: Commit, c: string) {
    (k.Upserted? && k.m.conditionId == c) || (k.Updated? && k.c == c) || (k.Removed? && k.c == c)
  }

  predicate Writing(s: System, t: nat, c: string) {
    var p := PhaseOf(s, t);
    (p.Holding? || p.Committed?) && Concerns(p.k, c)
  }

  lemma CommitLeavesOthers(r: Registry, k: Commit, c: string)
    requires !Concerns(k, c) && Coherent(r)
    ensures Step(r, k).markets.Get(c) == r.markets.Get(c)
  {
    hide ReindexField, DetachKeys;
    if k.Updated? && r.Tracks(k.c) {
      assert Apply(r.markets.items[k.c], k.u).conditionId == k.c;
    }
  }

  /** From taking its lock until it lets go a thread has its market to itself: no other thread is past acquiring for a
      commit about it, and whatever step another thread takes, the market stays as it is. */
  lemma WriterHasMarketToItself(s: System, t: nat, u: nat, a: Action, c: string)
    requires Inv(s) && Writing(s, t, c) && u != t && Enabled(s, u, a)
    ensures !Writing(s, u, c) && !Writing(Advance(s, u, a), u, c) && Writing(Advance(s, u, a), t, c)
    ensures Advance(s, u, a).registry.markets.Get(c) == s.registry.markets.Get(c)
  {
    assert Shard(PhaseOf(s, t).k) == c;
    if a.DoCommit? {
      CommitLeavesOthers(s.registry, PhaseOf(s, u).k, c);
    }
    hide Step, NoticeOf, Coherent, IndexSound, MarketInStep;
  }

  // ---- whole runs ----

  datatype Move = Move(thread: nat, action: Action)

  ghost predicate Legal(s: System, run: seq<Move>)
    decreases |run|
  {
    run != [] ==>
      Enabled(s, run[0].thread, run[0].action) && Legal(Advance(s, run[0].thread, run[0].action), run[1..])
  }

  ghost function Run(s: System, run: seq<Move>): System
    requires Legal(s, run)
    decreases |run|
  {
    if run == [] then s else Run(Advance(s, run[0].thread, run[0].action), run[1..])
  }

  lemma {:induction false} RunKeepsInv(s: System, run: seq<Move>)
    requires Inv(s) && Legal(s, run)
    ensures Inv(Run(s, run))
    decreases |run|
  {
    if run != [] {
      StepKeepsInv(s, run[0].thread, run[0].action);
      RunKeepsInv(Advance(s, run[0].thread, run[0].action), run[1..]);
    }
  }

  /** However threads interleave upserts, updates and removals, each market's listeners hear added,
      pruned, added, ... with the same companion from an added to its pruned; and companions,
      first-tracked times and markets have the same keys at every point. */
  lemma NoticesAlternate(run: seq<Move>, c: string)
    requires Legal(Init(), run)
    ensures var s := Run(Init(), run);
      && Alternates(About(s.log, c))
      && s.registry.companions.Keys == s.registry.markets.items.Keys == s.registry.firstTracked.Keys
      && (c !in s.holder ==>
            if s.registry.Tracks(c) then LastAdded(About(s.log, c), s.registry.companions[c]) else NotLive(About(s.log, c)))
  {
    InitHolds();
    RunKeepsInv(Init(), run);
    assert MarketInStep(Run(Init(), run), c);
  }
}
