/** The market registry's committed state: copy-on-write indexes over the tracked markets, and the
    companions and first-tracked times that live and die with them. */
module RegistryModel {
  import opened Prelude
  import opened Markets

  datatype Registry = Registry(
    markets: Dict<string, Market>,
    byToken: map<string, string>,
    bySlug: map<string, string>,
    byEventSlug: map<string, string>,
    companions: map<string, nat>,     // condition id -> identity of its companion object
    firstTracked: map<string, int>,
    nextCompanion: nat                // identities are never reused
  ) {
    predicate Tracks(c: string) { c in markets.items }
  }

  const EMPTY := Registry(EmptyDict(), map[], map[], map[], map[], map[], 0)

  /** What a market is indexed by. */
  datatype Field = ByToken | BySlug | ByEventSlug

  function KeysOf(f: Field, m: Market): seq<string> {
    match f
    case ByToken => m.tokens
    case BySlug => [m.slug]
    case ByEventSlug => if Truthy(m.eventSlug) then [m.eventSlug.value] else []
  }

  // ---- commits ----

  /** Drop the entries for these keys that still point at c. */
  function DetachKeys(index: map<string, string>, keys: seq<string>, c: string): (r: map<string, string>)
    ensures forall k :: k in r <==> k in index && !(k in keys && index[k] == c)
    ensures forall k :: k in r ==> r[k] == index[k]
    decreases |keys|
  {
    if keys == [] then index
    else
      var rest := if keys[0] in index && index[keys[0]] == c then index - {keys[0]} else index;
      assert forall k :: k in keys <==> k == keys[0] || k in keys[1..];
      DetachKeys(rest, keys[1..], c)
  }

  /** Point the keys at c; with `keepFirst` a key already taken keeps its holder. */
  function AttachKeys(index: map<string, string>, keys: seq<string>, c: string, keepFirst: bool): (r: map<string, string>)
    ensures forall k :: k in r <==> k in index || k in keys
    ensures forall k :: k in r ==> r[k] == if k in index && (keepFirst || k !in keys) then index[k] else c
    decreases |keys|
  {
    if keys == [] then index
    else
      var rest := if keepFirst && keys[0] in index then index else index[keys[0] := c];
      assert forall k :: k in keys <==> k == keys[0] || k in keys[1..];
      AttachKeys(rest, keys[1..], c, keepFirst)
  }

  function ReindexField(index: map<string, string>, items: map<string, Market>, m: Market, f: Field): map<string, string> {
    var c := m.conditionId;
    var cleared := if c in items then DetachKeys(index, KeysOf(f, items[c]), c) else index;
    AttachKeys(cleared, KeysOf(f, m), c, f == ByEventSlug)
  }

  /** Replace the market's old index entries by its new ones and store it. */
  function Reindex(r: Registry, m: Market): Registry {
    r.(markets := r.markets.Put(m.conditionId, m),
       byToken := ReindexField(r.byToken, r.markets.items, m, ByToken),
       bySlug := ReindexField(r.bySlug, r.markets.items, m, BySlug),
       byEventSlug := ReindexField(r.byEventSlug, r.markets.items, m, ByEventSlug))
  }

  function Upsert(r: Registry, m: Market, now: int): Registry {
    var n := Reindex(r, m);
    if m.conditionId in r.companions then n
    else n.(companions := r.companions[m.conditionId := r.nextCompanion],
            firstTracked := r.firstTracked[m.conditionId := now],
            nextCompanion := r.nextCompanion + 1)
  }

  function Update(r: Registry, c: string, u: MarketUpdate): Registry {
    if r.Tracks(c) then Reindex(r, Apply(r.markets.items[c], u)) else r
  }

  function Remove(r: Registry, c: string): Registry {
    if !r.Tracks(c) then r
    else
      var m := r.markets.items[c];
      r.(markets := r.markets.Drop(c), companions := r.companions - {c}, firstTracked := r.firstTracked - {c},
         byToken := DetachKeys(r.byToken, KeysOf(ByToken, m), c),
         bySlug := DetachKeys(r.bySlug, KeysOf(BySlug, m), c),
         byEventSlug := DetachKeys(r.byEventSlug, KeysOf(ByEventSlug, m), c))
  }

  // ---- readers ----

  function Fetch(r: Registry, c: Option<string>): Option<Market> {
    if c.Some? then r.markets.Get(c.value) else None
  }

  function GetByToken(r: Registry, t: string): Option<Market> {
    Fetch(r, if t in r.byToken then Some(r.byToken[t]) else None)
  }

  function GetBySlug(r: Registry, s: string): Option<Market> {
    Fetch(r, if s in r.bySlug then Some(r.bySlug[s]) else if s in r.byEventSlug then Some(r.byEventSlug[s]) else None)
  }

  /** The published snapshot: the markets in dictionary order. */
  function Snapshot(r: Registry): (s: seq<Market>)
    requires r.markets.Valid()
    ensures |s| == |r.markets.order|
  {
    seq(|r.markets.order|, i requires 0 <= i < |r.markets.order| => r.markets.items[r.markets.order[i]])
  }

  /** The snapshot's linear scan by token. */
  function ScanToken(markets: seq<Market>, t: string): (found: Option<Market>)
    ensures found.None? <==> forall m :: m in markets ==> t !in m.tokens
    ensures found.Some? ==> found.value in markets && t in found.value.tokens
  {
    if markets == [] then None
    else if t in markets[0].tokens then Some(markets[0])
    else
      var rest := ScanToken(markets[1..], t);
      assert forall m :: m in markets <==> m == markets[0] || m in markets[1..];
      rest
  }

  method ScanByToken(markets: seq<Market>, t: string) returns (found: Option<Market>)
    ensures found == ScanToken(markets, t)
  {
    var i := 0;
    while i < |markets|
      invariant 0 <= i <= |markets|
      invariant ScanToken(markets, t) == ScanToken(markets[i..], t)
    {
      if t in markets[i].tokens {
        return Some(markets[i]);
      }
      assert markets[i..][1..] == markets[i + 1..];
      i := i + 1;
    }
    return None;
  }

  /** The first carrier in order is what the scan returns. */
  lemma {:induction false} ScanFindsFirst(markets: seq<Market>, t: string, at: nat)
    requires at < |markets| && t in markets[at].tokens
    requires forall j :: 0 <= j < at ==> t !in markets[j].tokens
    ensures ScanToken(markets, t) == Some(markets[at])
  {
    if at > 0 {
      ScanFindsFirst(markets[1..], t, at - 1);
    }
  }

  // ---- what every reachable registry satisfies ----

  /** Markets sit under their own condition id, with exactly one companion and one first-tracked
      time each, and no two share a companion. */
  ghost predicate Coherent(r: Registry) {
    && MarketsKeyed(r.markets)
    && SameLives(r.companions, r.firstTracked, r.markets.items)
    && CompanionsDistinct(r.companions, r.nextCompanion)
  }

  ghost predicate MarketsKeyed(markets: Dict<string, Market>) {
    markets.Valid() && forall c :: c in markets.items ==> markets.items[c].conditionId == c
  }

  ghost predicate SameLives(companions: map<string, nat>, firstTracked: map<string, int>, items: map<string, Market>) {
    && (forall c :: c in companions <==> c in items)
    && (forall c :: c in firstTracked <==> c in items)
  }

  ghost predicate CompanionsDistinct(companions: map<string, nat>, next: nat) {
    && (forall c :: c in companions ==> companions[c] < next)
    && (forall c, d :: c in companions && d in companions && companions[c] == companions[d] ==> c == d)
  }

  /** Every index entry points at a tracked market that carries the key. */
  ghost predicate PointsBack(index: map<string, string>, items: map<string, Market>, f: Field) {
    forall k :: k in index ==> index[k] in items && k in KeysOf(f, items[index[k]])
  }

  ghost predicate IndexSound(r: Registry) {
    && PointsBack(r.byToken, r.markets.items, ByToken)
    && PointsBack(r.bySlug, r.markets.items, BySlug)
    && PointsBack(r.byEventSlug, r.markets.items, ByEventSlug)
  }

  /** No two tracked markets share a token. */
  ghost predicate TokensExclusive(items: map<string, Market>) {
    forall c, d, t :: c in items && d in items && t in items[c].tokens && t in items[d].tokens ==> c == d
  }

  /** Every token of a tracked market is indexed. */
  ghost predicate TokensIndexed(index: map<string, string>, items: map<string, Market>) {
    forall c, t :: c in items && t in items[c].tokens ==> t in index
  }

  ghost predicate LookupAgrees(r: Registry)
    requires r.markets.Valid()
  {
    forall t :: GetByToken(r, t) == ScanToken(Snapshot(r), t)
  }

  // ---- commits keep the state coherent and the indexes sound ----

  lemma ReindexFieldPointsBack(index: map<string, string>, items: map<string, Market>, m: Market, f: Field)
    requires PointsBack(index, items, f)
    ensures PointsBack(ReindexField(index, items, m, f), items[m.conditionId := m], f)
  {}

  lemma DetachPointsBack(index: map<string, string>, items: map<string, Market>, c: string, f: Field)
    requires PointsBack(index, items, f) && c in items
    ensures PointsBack(DetachKeys(index, KeysOf(f, items[c]), c), items - {c}, f)
  {}

  lemma ReindexKeepsSound(r: Registry, m: Market)
    requires IndexSound(r)
    ensures IndexSound(Reindex(r, m))
  {
    ReindexFieldPointsBack(r.byToken, r.markets.items, m, ByToken);
    ReindexFieldPointsBack(r.bySlug, r.markets.items, m, BySlug);
    ReindexFieldPointsBack(r.byEventSlug, r.markets.items, m, ByEventSlug);
  }

  lemma FreshCompanion(companions: map<string, nat>, next: nat, c: string)
    requires CompanionsDistinct(companions, next) && c !in companions
    ensures CompanionsDistinct(companions[c := next], next + 1)
  {}

  /** Storing a market under its own id keeps the lifecycle maps in step. */
  lemma StoreKeepsCoherent(r: Registry, n: Registry, m: Market, now: int)
    requires Coherent(r) && n.markets == r.markets.Put(m.conditionId, m)
    requires if m.conditionId in r.companions
             then n.companions == r.companions && n.firstTracked == r.firstTracked && n.nextCompanion == r.nextCompanion
             else n.companions == r.companions[m.conditionId := r.nextCompanion]
                  && n.firstTracked == r.firstTracked[m.conditionId := now] && n.nextCompanion == r.nextCompanion + 1
    ensures Coherent(n)
  {
    hide MarketsKeyed, SameLives, CompanionsDistinct;
    PutKeyed(r.markets, m);
    PutLife(r.companions, r.firstTracked, r.markets.items, m, r.nextCompanion, now);
    if m.conditionId !in r.companions {
      FreshCompanion(r.companions, r.nextCompanion, m.conditionId);
    }
  }

  lemma PutKeyed(markets: Dict<string, Market>, m: Market)
    requires MarketsKeyed(markets)
    ensures MarketsKeyed(markets.Put(m.conditionId, m))
  {}

  lemma PutLife(companions: map<string, nat>, firstTracked: map<string, int>, items: map<string, Market>, m: Market,
                id: nat, now: int)
    requires SameLives(companions, firstTracked, items)
    ensures var c, after := m.conditionId, items[m.conditionId := m];
      if c in companions then SameLives(companions, firstTracked, after)
      else SameLives(companions[c := id], firstTracked[c := now], after)
  {}

  /** An upsert tracks the market; a new one gets a fresh companion, a known one keeps its own. */
  lemma UpsertKeeps(r: Registry, m: Market, now: int)
    requires Coherent(r) && IndexSound(r)
    ensures Coherent(Upsert(r, m, now)) && IndexSound(Upsert(r, m, now))
    ensures r.Tracks(m.conditionId) ==> Upsert(r, m, now).companions == r.companions
    ensures !r.Tracks(m.conditionId) ==>
      forall c :: c in r.companions ==> Upsert(r, m, now).companions[m.conditionId] != r.companions[c]
  {
    ReindexKeepsSound(r, m);
    var n := Upsert(r, m, now);
    assert m.conditionId in r.companions <==> r.Tracks(m.conditionId);
    StoreKeepsCoherent(r, n, m, now);
  }

  lemma UpdateKeeps(r: Registry, c: string, u: MarketUpdate)
    requires Coherent(r) && IndexSound(r)
    ensures Coherent(Update(r, c, u)) && IndexSound(Update(r, c, u))
    ensures Update(r, c, u).companions == r.companions && Update(r, c, u).markets.order == r.markets.order
  {
    if r.Tracks(c) {
      var m := Apply(r.markets.items[c], u);
      assert m.conditionId == c && c in r.companions;
      ReindexKeepsSound(r, m);
      StoreKeepsCoherent(r, Update(r, c, u), m, 0);
    }
  }

  lemma DropLife(companions: map<string, nat>, firstTracked: map<string, int>, items: map<string, Market>, next: nat, c: string)
    requires SameLives(companions, firstTracked, items) && CompanionsDistinct(companions, next)
    ensures SameLives(companions - {c}, firstTracked - {c}, items - {c}) && CompanionsDistinct(companions - {c}, next)
  {}

  lemma RemoveKeepsCoherent(r: Registry, c: string)
    requires Coherent(r) && r.Tracks(c)
    ensures Coherent(Remove(r, c))
  {
    hide DetachKeys, KeysOf, CompanionsDistinct, SameLives;
    var n := Remove(r, c);
    assert n.markets == r.markets.Drop(c);
    assert MarketsKeyed(n.markets);
    hide MarketsKeyed;
    DropLife(r.companions, r.firstTracked, r.markets.items, r.nextCompanion, c);
  }

  lemma RemoveKeepsSound(r: Registry, c: string)
    requires IndexSound(r) && r.Tracks(c)
    ensures IndexSound(Remove(r, c))
  {
    DetachPointsBack(r.byToken, r.markets.items, c, ByToken);
    DetachPointsBack(r.bySlug, r.markets.items, c, BySlug);
    DetachPointsBack(r.byEventSlug, r.markets.items, c, ByEventSlug);
    hide PointsBack, DetachKeys, KeysOf;
  }

  lemma RemoveKeeps(r: Registry, c: string)
    requires Coherent(r) && IndexSound(r)
    ensures Coherent(Remove(r, c)) && IndexSound(Remove(r, c)) && !Remove(r, c).Tracks(c)
    ensures forall d :: d != c ==> Remove(r, c).markets.Get(d) == r.markets.Get(d)
  {
    hide Coherent, IndexSound, DetachKeys, KeysOf;
    if r.Tracks(c) {
      RemoveKeepsCoherent(r, c);
      RemoveKeepsSound(r, c);
      assert Remove(r, c).markets == r.markets.Drop(c);
    }
  }

  // ---- fast lookups against the scan ----

  /** A market carrying t that no market before it carries is what the scan returns. */
  lemma ScanReturns(r: Registry, c: string, t: string)
    requires Coherent(r) && r.Tracks(c) && t in r.markets.items[c].tokens
    requires forall d :: d in r.markets.items && d != c && t in r.markets.items[d].tokens ==>
               exists i, j :: 0 <= i < j < |r.markets.order| && r.markets.order[i] == c && r.markets.order[j] == d
    ensures ScanToken(Snapshot(r), t) == Some(r.markets.items[c])
  {
    var at :| 0 <= at < |r.markets.order| && r.markets.order[at] == c;
    forall j | 0 <= j < at ensures t !in Snapshot(r)[j].tokens {
      assert r.markets.order[j] in r.markets.items;
    }
    ScanFindsFirst(Snapshot(r), t, at);
  }

  /** A token no tracked market carries is not found. */
  lemma ScanMisses(r: Registry, t: string)
    requires Coherent(r) && forall c :: c in r.markets.items ==> t !in r.markets.items[c].tokens
    ensures ScanToken(Snapshot(r), t) == None
  {
    forall m | m in Snapshot(r) ensures t !in m.tokens {
      var i :| 0 <= i < |Snapshot(r)| && Snapshot(r)[i] == m;
      assert r.markets.order[i] in r.markets.items;
    }
  }

  /** Exclusive, indexed tokens make the indexed lookup and the scan agree on every token. */
  lemma ExclusiveTokensAgree(r: Registry)
    requires Coherent(r) && IndexSound(r)
    requires TokensExclusive(r.markets.items) && TokensIndexed(r.byToken, r.markets.items)
    ensures LookupAgrees(r)
  {
    forall t ensures GetByToken(r, t) == ScanToken(Snapshot(r), t) {
      if t in r.byToken {
        ScanReturns(r, r.byToken[t], t);
      } else {
        ScanMisses(r, t);
      }
    }
  }

  lemma ReindexKeepsIndexed(index: map<string, string>, items: map<string, Market>, m: Market)
    requires PointsBack(index, items, ByToken) && TokensExclusive(items) && TokensIndexed(index, items)
    requires forall c :: c in items ==> items[c].conditionId == c
    ensures TokensIndexed(ReindexField(index, items, m, ByToken), items[m.conditionId := m])
  {
    var c := m.conditionId;
    var n := ReindexField(index, items, m, ByToken);
    var after := items[c := m];
    forall d, t | d in after && t in after[d].tokens ensures t in n {
      if d != c {
        assert t in index && index[t] == d;
      }
    }
  }

  lemma RemoveKeepsIndexed(index: map<string, string>, items: map<string, Market>, c: string)
    requires PointsBack(index, items, ByToken) && TokensExclusive(items) && TokensIndexed(index, items) && c in items
    ensures TokensIndexed(DetachKeys(index, items[c].tokens, c), items - {c}) && TokensExclusive(items - {c})
  {
    forall d, t | d in items - {c} && t in items[d].tokens ensures t in DetachKeys(index, items[c].tokens, c) {
      assert t in index && index[t] == d;
    }
  }

  // ---- whole runs of commits ----

  datatype Commit = Upserted(m: Market, now: int) | Updated(c: string, u: MarketUpdate) | Removed(c: string)

  function Step(r: Registry, k: Commit): Registry {
    match k
    case Upserted(m, now) => Upsert(r, m, now)
    case Updated(c, u) => Update(r, c, u)
    case Removed(c) => Remove(r, c)
  }

  function Run(r: Registry, ks: seq<Commit>): Registry
    decreases |ks|
  {
    if ks == [] then r else Run(Step(r, ks[0]), ks[1..])
  }

  /** What listeners are told once the indexes are published. */
  datatype Notice =
    | Added(conditionId: string, companion: nat)
    | Pruned(conditionId: string, companion: nat)

  /** A first upsert announces the market, a removal announces its end, nothing else is announced. */
  function NoticeOf(r: Registry, k: Commit): Option<Notice> {
    match k
    case Upserted(m, _) => if m.conditionId in r.companions then None else Some(Added(m.conditionId, r.nextCompanion))
    case Updated(_, _) => None
    case Removed(c) => if r.Tracks(c) && c in r.companions then Some(Pruned(c, r.companions[c])) else None
  }

  /** At every point of the run, no two tracked markets share a token. */
  ghost predicate ExclusiveThroughout(r: Registry, ks: seq<Commit>)
    decreases |ks|
  {
    TokensExclusive(r.markets.items) && (ks != [] ==> ExclusiveThroughout(Step(r, ks[0]), ks[1..]))
  }

  lemma StepKeeps(r: Registry, k: Commit)
    requires Coherent(r) && IndexSound(r)
    ensures Coherent(Step(r, k)) && IndexSound(Step(r, k))
  {
    match k
    case Upserted(m, now) => UpsertKeeps(r, m, now);
    case Updated(c, u) => UpdateKeeps(r, c, u);
    case Removed(c) => RemoveKeeps(r, c);
  }

  lemma StepKeepsIndexed(r: Registry, k: Commit)
    requires Coherent(r) && PointsBack(r.byToken, r.markets.items, ByToken)
    requires TokensExclusive(r.markets.items) && TokensIndexed(r.byToken, r.markets.items)
    ensures TokensIndexed(Step(r, k).byToken, Step(r, k).markets.items)
  {
    match k
    case Upserted(m, now) => ReindexKeepsIndexed(r.byToken, r.markets.items, m);
    case Updated(c, u) =>
      if r.Tracks(c) {
        ReindexKeepsIndexed(r.byToken, r.markets.items, Apply(r.markets.items[c], u));
      }
    case Removed(c) =>
      if r.Tracks(c) {
        RemoveKeepsIndexed(r.byToken, r.markets.items, c);
      }
  }

  /** After any run of upserts, updates and removals every index entry points at a tracked market
      carrying its key; if tracked markets never share a token along the way, the indexed lookup
      returns what the linear scan returns, for every token. */
  lemma {:induction false} RunAgreesWithScan(r: Registry, ks: seq<Commit>)
    requires Coherent(r) && IndexSound(r)
    ensures Coherent(Run(r, ks)) && IndexSound(Run(r, ks))
    ensures TokensIndexed(r.byToken, r.markets.items) && ExclusiveThroughout(r, ks) ==> LookupAgrees(Run(r, ks))
    decreases |ks|
  {
    if ks == [] {
      if TokensIndexed(r.byToken, r.markets.items) && TokensExclusive(r.markets.items) {
        ExclusiveTokensAgree(r);
      }
    } else {
      StepKeeps(r, ks[0]);
      if TokensIndexed(r.byToken, r.markets.items) && ExclusiveThroughout(r, ks) {
        StepKeepsIndexed(r, ks[0]);
      }
      RunAgreesWithScan(Step(r, ks[0]), ks[1..]);
    }
  }

  // ---- exactly when one upsert keeps the lookup right ----

  /** Place i of the snapshot comes before c's own and its market carries token t of m. */
  ghost predicate CarrierAhead(r: Registry, m: Market, i: nat, t: string) {
    && i < |r.markets.order|
    && (forall j :: 0 <= j <= i ==> r.markets.order[j] != m.conditionId)
    && r.markets.order[i] in r.markets.items
    && t in m.tokens && t in r.markets.items[r.markets.order[i]].tokens
  }

  ghost predicate CarriedAhead(r: Registry, m: Market) {
    exists i: nat, t :: CarrierAhead(r, m, i, t)
  }

  /** n is r with m stored and its tokens pointed at it. */
  ghost predicate StoredIn(r: Registry, n: Registry, m: Market) {
    && Coherent(r) && Coherent(n)
    && n.markets == r.markets.Put(m.conditionId, m)
    && (forall t :: t in m.tokens ==> t in n.byToken && n.byToken[t] == m.conditionId)
  }

  /** A carrier at place i that comes before c stops the scan short of c. */
  lemma ScanStopsShort(n: Registry, c: string, t: string, i: nat)
    requires Coherent(n) && i < |n.markets.order| && t in n.markets.items[n.markets.order[i]].tokens
    requires forall j :: 0 <= j <= i ==> n.markets.order[j] != c
    ensures ScanToken(Snapshot(n), t).Some? && ScanToken(Snapshot(n), t).value.conditionId != c
  {
    ScanStopsBy(Snapshot(n), t, i);
    var j :| 0 <= j <= i && ScanToken(Snapshot(n), t) == Some(Snapshot(n)[j]);
    assert n.markets.order[j] in n.markets.items;
  }

  lemma AheadHidesFromScan(r: Registry, n: Registry, m: Market)
    requires StoredIn(r, n, m) && CarriedAhead(r, m)
    ensures !LookupAgrees(n)
  {
    var i: nat, t :| CarrierAhead(r, m, i, t);
    forall j | 0 <= j <= i ensures n.markets.order[j] != m.conditionId {
      assert n.markets.order[j] == r.markets.order[j];
    }
    assert n.markets.items[n.markets.order[i]] == r.markets.items[r.markets.order[i]];
    ScanStopsShort(n, m.conditionId, t, i);
    assert GetByToken(n, t) == Some(m);
  }

  lemma PlaceOf(r: Registry, d: string) returns (j: nat)
    requires Coherent(r) && d in r.markets.items
    ensures j < |r.markets.order| && r.markets.order[j] == d
  {
    j :| 0 <= j < |r.markets.order| && r.markets.order[j] == d;
  }

  /** Storing m moves no place and opens at most one, at the end. */
  lemma PlacesStay(r: Registry, n: Registry, m: Market, j: nat)
    requires StoredIn(r, n, m) && j < |r.markets.order|
    ensures j < |n.markets.order| && n.markets.order[j] == r.markets.order[j]
    ensures forall d :: d in n.markets.items <==> d == m.conditionId || d in r.markets.items
    ensures forall d :: d in n.markets.items ==> n.markets.items[d] == if d == m.conditionId then m else r.markets.items[d]
  {
    hide Coherent;
  }

  lemma BehindOwnPlace(r: Registry, n: Registry, m: Market, t: string, d: string) returns (i: nat, j: nat)
    requires StoredIn(r, n, m) && !CarriedAhead(r, m) && t in m.tokens
    requires d in r.markets.items && d != m.conditionId && t in r.markets.items[d].tokens
    ensures i < j < |n.markets.order| && n.markets.order[i] == m.conditionId && n.markets.order[j] == d
  {
    j := PlaceOf(r, d);
    assert !CarrierAhead(r, m, j, t);
    i :| 0 <= i <= j && r.markets.order[i] == m.conditionId;
    PlacesStay(r, n, m, j);
    PlacesStay(r, n, m, i);
  }

  /** With nobody ahead, m is the first carrier of each of its tokens. */
  lemma NobodyAhead(r: Registry, n: Registry, m: Market, t: string)
    requires StoredIn(r, n, m) && !CarriedAhead(r, m) && t in m.tokens
    ensures ScanToken(Snapshot(n), t) == Some(m)
  {
    var c := m.conditionId;
    assert c in n.markets.items && n.markets.items[c] == m && Coherent(n);
    forall d | d in n.markets.items && d != c && t in n.markets.items[d].tokens
      ensures exists i, j :: 0 <= i < j < |n.markets.order| && n.markets.order[i] == c && n.markets.order[j] == d
    {
      assert d in r.markets.items && r.markets.items[d] == n.markets.items[d];
      var i, j := BehindOwnPlace(r, n, m, t, d);
    }
    hide Coherent, CarriedAhead, ScanToken;
    ScanReturns(n, c, t);
  }

  /** The scan never walks past a carrier. */
  lemma {:induction false} ScanStopsBy(markets: seq<Market>, t: string, at: nat)
    requires at < |markets| && t in markets[at].tokens
    ensures exists j :: 0 <= j <= at && ScanToken(markets, t) == Some(markets[j])
  {
    if t !in markets[0].tokens {
      ScanStopsBy(markets[1..], t, at - 1);
      var j :| 0 <= j <= at - 1 && ScanToken(markets[1..], t) == Some(markets[1..][j]);
      assert markets[j + 1] == markets[1..][j];
    }
  }

  lemma AttachedTokens(index: map<string, string>, items: map<string, Market>, m: Market)
    ensures var n := ReindexField(index, items, m, ByToken);
      forall t :: t in m.tokens ==> t in n && n[t] == m.conditionId
  {}

  lemma UpsertStores(r: Registry, m: Market, now: int)
    requires Coherent(r) && IndexSound(r)
    ensures StoredIn(r, Upsert(r, m, now), m) && IndexSound(Upsert(r, m, now))
    ensures Upsert(r, m, now).byToken == ReindexField(r.byToken, r.markets.items, m, ByToken)
  {
    hide Coherent, IndexSound, Upsert, ReindexField;
    UpsertKeeps(r, m, now);
    StoredIndex(r, m, now, ByToken);
    AttachedTokens(r.byToken, r.markets.items, m);
  }

  /** From a registry with exclusive, indexed tokens, an upsert leaves the lookup agreeing with the
      scan if and only if no other market ahead of its place in the snapshot carries one of its tokens. */
  lemma UpsertAgreesExactly(r: Registry, m: Market, now: int)
    requires Coherent(r) && IndexSound(r)
    requires TokensExclusive(r.markets.items) && TokensIndexed(r.byToken, r.markets.items)
    ensures Coherent(Upsert(r, m, now)) && (LookupAgrees(Upsert(r, m, now)) <==> !CarriedAhead(r, m))
  {
    var n := Upsert(r, m, now);
    assert forall c :: c in r.markets.items ==> r.markets.items[c].conditionId == c;
    hide Upsert, LookupAgrees, CarriedAhead, IndexSound, TokensExclusive, TokensIndexed, ReindexField, PointsBack;
    UpsertStores(r, m, now);
    SoundIndex(r, ByToken);
    ReindexKeepsIndexed(r.byToken, r.markets.items, m);
    if CarriedAhead(r, m) {
      AheadHidesFromScan(r, n, m);
    } else {
      NotAheadAgrees(r, n, m);
    }
  }

  lemma NotAheadAgrees(r: Registry, n: Registry, m: Market)
    requires StoredIn(r, n, m) && IndexSound(n) && !CarriedAhead(r, m)
    requires TokensExclusive(r.markets.items) && TokensIndexed(n.byToken, n.markets.items)
    ensures LookupAgrees(n)
  {
    OtherTokensAgree(r, n, m);
    forall t | t in m.tokens ensures GetByToken(n, t) == ScanToken(Snapshot(n), t) {
      NobodyAhead(r, n, m, t);
    }
  }

  lemma OtherTokensAgree(r: Registry, n: Registry, m: Market)
    requires StoredIn(r, n, m) && IndexSound(n)
    requires TokensExclusive(r.markets.items) && TokensIndexed(n.byToken, n.markets.items)
    ensures forall t :: t !in m.tokens ==> GetByToken(n, t) == ScanToken(Snapshot(n), t)
  {
    forall t | t !in m.tokens ensures GetByToken(n, t) == ScanToken(Snapshot(n), t) {
      if t in n.byToken {
        ScanReturns(n, n.byToken[t], t);
      } else {
        ScanMisses(n, t);
      }
    }
  }

  // ---- which indexes stay complete ----

  function IndexOf(r: Registry, f: Field): map<string, string> {
    match f
    case ByToken => r.byToken
    case BySlug => r.bySlug
    case ByEventSlug => r.byEventSlug
  }

  /** Every key of every tracked market is indexed. */
  ghost predicate Complete(index: map<string, string>, items: map<string, Market>, f: Field) {
    forall c, k :: c in items && k in KeysOf(f, items[c]) ==> k in index
  }

  /** Dropping c, or storing it with the keys `kept`, takes key k away from market d, which also carries it:
      the index pointed it at c. */
  predicate Orphaned(index: map<string, string>, items: map<string, Market>, f: Field, c: string, kept: seq<string>, d: string, k: string) {
    && c in items && d in items && d != c
    && k in KeysOf(f, items[c]) && k in KeysOf(f, items[d]) && k !in kept
    && k in index && index[k] == c
  }

  ghost predicate Orphans(index: map<string, string>, items: map<string, Market>, f: Field, c: string, kept: seq<string>) {
    exists d, k :: Orphaned(index, items, f, c, kept, d, k)
  }

  lemma UpdateUnknown(r: Registry, c: string, u: MarketUpdate)
    ensures !r.Tracks(c) ==> Update(r, c, u) == r
  {}

  lemma CompanionKnown(r: Registry, c: string)
    requires Coherent(r)
    ensures c in r.companions <==> r.Tracks(c)
  {}

  /** Detaching a market's old keys and attaching the new ones leaves a complete index complete if and only if no
      other market loses a key to it. */
  lemma ReindexStaysComplete(index: map<string, string>, items: map<string, Market>, m: Market, f: Field)
    requires PointsBack(index, items, f) && Complete(index, items, f)
    ensures var stays := Complete(ReindexField(index, items, m, f), items[m.conditionId := m], f);
      stays <==> !Orphans(index, items, f, m.conditionId, KeysOf(f, m))
  {
    var c, n, after := m.conditionId, ReindexField(index, items, m, f), items[m.conditionId := m];
    if d, k :| Orphaned(index, items, f, c, KeysOf(f, m), d, k) {
      assert after[d] == items[d] && k !in n;
    } else {
      forall d, k | d in after && k in KeysOf(f, after[d]) ensures k in n {
        if d != c {
          assert k in index && !Orphaned(index, items, f, c, KeysOf(f, m), d, k);
        }
      }
    }
  }

  lemma DropStaysComplete(index: map<string, string>, items: map<string, Market>, c: string, f: Field)
    requires PointsBack(index, items, f) && Complete(index, items, f) && c in items
    ensures Complete(DetachKeys(index, KeysOf(f, items[c]), c), items - {c}, f) <==> !Orphans(index, items, f, c, [])
  {
    if d, k :| Orphaned(index, items, f, c, [], d, k) {
      var n := DetachKeys(index, KeysOf(f, items[c]), c);
      hide PointsBack;
      assert d in items - {c} && (items - {c})[d] == items[d] && k !in n;
    } else {
      DropWithoutOrphans(index, items, c, f);
    }
  }

  lemma DropWithoutOrphans(index: map<string, string>, items: map<string, Market>, c: string, f: Field)
    requires Complete(index, items, f) && c in items && !Orphans(index, items, f, c, [])
    ensures Complete(DetachKeys(index, KeysOf(f, items[c]), c), items - {c}, f)
  {
    var n := DetachKeys(index, KeysOf(f, items[c]), c);
    forall d, k | d in items - {c} && k in KeysOf(f, items[d]) ensures k in n {
      assert k in index && !Orphaned(index, items, f, c, [], d, k);
    }
  }

  /** A commit that orphans a key of another tracked market. An update keeps every key. */
  ghost predicate CommitOrphans(r: Registry, k: Commit, f: Field) {
    match k
    case Upserted(m, _) => Orphans(IndexOf(r, f), r.markets.items, f, m.conditionId, KeysOf(f, m))
    case Updated(_, _) => false
    case Removed(c) => Orphans(IndexOf(r, f), r.markets.items, f, c, [])
  }

  ghost predicate IndexComplete(r: Registry, f: Field) {
    Complete(IndexOf(r, f), r.markets.items, f)
  }

  lemma SoundIndex(r: Registry, f: Field)
    requires IndexSound(r)
    ensures PointsBack(IndexOf(r, f), r.markets.items, f)
  {}

  lemma StoredIndex(r: Registry, m: Market, now: int, f: Field)
    ensures IndexOf(Upsert(r, m, now), f) == ReindexField(IndexOf(r, f), r.markets.items, m, f)
    ensures Upsert(r, m, now).markets == r.markets.Put(m.conditionId, m)
    ensures r.Tracks(m.conditionId) ==> IndexOf(Reindex(r, m), f) == IndexOf(Upsert(r, m, now), f)
                                        && Reindex(r, m).markets == Upsert(r, m, now).markets
  {
    hide ReindexField;
  }

  lemma RemovedIndex(r: Registry, c: string, f: Field)
    requires r.Tracks(c)
    ensures IndexOf(Remove(r, c), f) == DetachKeys(IndexOf(r, f), KeysOf(f, r.markets.items[c]), c)
    ensures Remove(r, c).markets.items == r.markets.items - {c}
  {
    hide DetachKeys;
  }

  lemma UpdateKeepsKeys(m: Market, u: MarketUpdate, f: Field)
    ensures KeysOf(f, Apply(m, u)) == KeysOf(f, m) && Apply(m, u).conditionId == m.conditionId
  {}

  /** From a complete index - of tokens, slugs or event slugs - a commit keeps it complete if and only if it takes no
      key from another tracked market: for an event slug, one removed or changed while a sibling still carries it. */
  lemma CommitStaysComplete(r: Registry, k: Commit, f: Field)
    requires Coherent(r) && IndexSound(r) && IndexComplete(r, f)
    ensures IndexComplete(Step(r, k), f) <==> !CommitOrphans(r, k, f)
  {
    SoundIndex(r, f);
    match k
    case Upserted(m, now) =>
      hide IndexOf, ReindexField, Complete, Orphans, Upsert, PointsBack;
      StoredIndex(r, m, now, f);
      ReindexStaysComplete(IndexOf(r, f), r.markets.items, m, f);
    case Updated(c, u) =>
      if r.Tracks(c) {
        UpdateStaysComplete(r, c, u, f);
      }
    case Removed(c) =>
      if r.Tracks(c) {
        hide IndexOf, DetachKeys, Complete, Orphans, Remove, PointsBack;
        RemovedIndex(r, c, f);
        DropStaysComplete(IndexOf(r, f), r.markets.items, c, f);
      }
  }

  lemma UpdateStaysComplete(r: Registry, c: string, u: MarketUpdate, f: Field)
    requires Coherent(r) && IndexSound(r) && IndexComplete(r, f) && r.Tracks(c)
    ensures IndexComplete(Update(r, c, u), f)
  {
    var m := Apply(r.markets.items[c], u);
    SoundIndex(r, f);
    UpdateKeepsKeys(r.markets.items[c], u, f);
    assert m.conditionId == c;
    StoredIndex(r, m, 0, f);
    ReindexStaysComplete(IndexOf(r, f), r.markets.items, m, f);
    assert !Orphans(IndexOf(r, f), r.markets.items, f, c, KeysOf(f, m));
    assert Update(r, c, u) == Reindex(r, m);
    hide IndexOf, ReindexField, Complete, Orphans, Upsert, Update, Reindex;
  }

  ghost predicate CompleteThroughout(r: Registry, ks: seq<Commit>, f: Field)
    decreases |ks|
  {
    IndexComplete(r, f) && (ks != [] ==> CompleteThroughout(Step(r, ks[0]), ks[1..], f))
  }

  ghost predicate NothingOrphaned(r: Registry, ks: seq<Commit>, f: Field)
    decreases |ks|
  {
    ks != [] ==> !CommitOrphans(r, ks[0], f) && NothingOrphaned(Step(r, ks[0]), ks[1..], f)
  }

  /** So an index stays complete at every point of a run if and only if no commit of the run orphans a key. */
  lemma {:induction false} RunStaysComplete(r: Registry, ks: seq<Commit>, f: Field)
    requires Coherent(r) && IndexSound(r) && IndexComplete(r, f)
    ensures CompleteThroughout(r, ks, f) <==> NothingOrphaned(r, ks, f)
    decreases |ks|
  {
    if ks != [] {
      StepKeeps(r, ks[0]);
      CommitStaysComplete(r, ks[0], f);
      hide Step, IndexComplete, CommitOrphans;
      if IndexComplete(Step(r, ks[0]), f) {
        RunStaysComplete(Step(r, ks[0]), ks[1..], f);
      }
    }
  }

  predicate Carries(m: Market, s: string) {
    m.slug == s || (Truthy(m.eventSlug) && m.eventSlug.value == s)
  }

  /** What the slug lookup returns is tracked and carries the slug, as its own or as its event's; an own slug that is
      indexed wins. */
  lemma SlugLookupSound(r: Registry, s: string)
    requires Coherent(r) && IndexSound(r)
    ensures GetBySlug(r, s).Some? ==>
      r.markets.Get(GetBySlug(r, s).value.conditionId) == GetBySlug(r, s) && Carries(GetBySlug(r, s).value, s)
    ensures s in r.bySlug ==> GetBySlug(r, s).Some? && GetBySlug(r, s).value.slug == s
    ensures s in r.byEventSlug ==> GetBySlug(r, s).Some?
  {
    if s in r.bySlug {
      EntryCarries(r, BySlug, s);
    } else if s in r.byEventSlug {
      EntryCarries(r, ByEventSlug, s);
    }
    hide IndexSound, Coherent;
  }

  lemma EntryCarries(r: Registry, f: Field, k: string)
    requires Coherent(r) && IndexSound(r) && k in IndexOf(r, f)
    ensures var c := IndexOf(r, f)[k];
      c in r.markets.items && k in KeysOf(f, r.markets.items[c]) && r.markets.items[c].conditionId == c
  {
    SoundIndex(r, f);
  }

  /** With both slug indexes complete the lookup finds a market exactly when one carries the slug. */
  lemma SlugLookupComplete(r: Registry, s: string)
    requires Coherent(r) && IndexSound(r) && IndexComplete(r, BySlug) && IndexComplete(r, ByEventSlug)
    ensures GetBySlug(r, s).Some? <==> exists c :: c in r.markets.items && Carries(r.markets.items[c], s)
  {
    SlugLookupSound(r, s);
    if c :| c in r.markets.items && Carries(r.markets.items[c], s) {
      assert s in KeysOf(BySlug, r.markets.items[c]) || s in KeysOf(ByEventSlug, r.markets.items[c]);
    }
    hide IndexSound, Coherent, GetBySlug;
  }

  function SlugMarket(c: string, slug: string): Market {
    Market(c, slug, Some("event"), [], 0.01, 1.0, None, None, None, None, None, Candidate, None)
  }

  lemma TwoSiblings() returns (r: Registry)
    ensures r == Upsert(Upsert(EMPTY, SlugMarket("1", "a"), 0), SlugMarket("2", "b"), 0)
    ensures r.byEventSlug == map["event" := "1"] && r.bySlug == map["a" := "1", "b" := "2"]
    ensures r.markets.items == map["1" := SlugMarket("1", "a"), "2" := SlugMarket("2", "b")]
  {
    var r1 := Upsert(EMPTY, SlugMarket("1", "a"), 0);
    assert r1.byEventSlug == map["event" := "1"] && r1.bySlug == map["a" := "1"];
    r := Upsert(r1, SlugMarket("2", "b"), 0);
  }

  /** Two markets of one event: removing the first drops the event slug from the index although
      the second still carries it, so the slug lookup misses what the scan would find. */
  lemma EventSlugIndexIncomplete()
    ensures var r := Remove(Upsert(Upsert(EMPTY, SlugMarket("1", "a"), 0), SlugMarket("2", "b"), 0), "1");
      && GetBySlug(r, "event") == None
      && r.Tracks("2") && r.markets.items["2"].eventSlug == Some("event")
  {
    hide Upsert;
    var r := TwoSiblings();
    assert KeysOf(ByEventSlug, SlugMarket("1", "a")) == ["event"];
  }
}
