/** Reads take no lock: a lookup reads the token index first and the markets after, while a commit publishes
    the markets first and the indexes after. A lookup that overlaps commits so pairs an older index with newer
    markets, never the other way round. */
module RegistryReads {
  import opened Prelude
  import opened Markets
  import opened RegistryModel

  /** The index as it was, the markets as they are. */
  function OverlappedRead(before: Registry, after: Registry, t: string): Option<Market> {
    Fetch(after, if t in before.byToken then Some(before.byToken[t]) else None)
  }

  /** However many commits fall between the two reads, a market found is tracked at the second read and carried
      the token at the first. */
  lemma {:induction false} OverlappedReadSound(before: Registry, ks: seq<Commit>, t: string)
    requires Coherent(before) && IndexSound(before)
    ensures var found := OverlappedRead(before, Run(before, ks), t);
      found.Some? ==>
        && Run(before, ks).markets.Get(found.value.conditionId) == found
        && before.Tracks(found.value.conditionId) && t in before.markets.items[found.value.conditionId].tokens
  {
    RunAgreesWithScan(before, ks);
  }

  /** The commit that stores a market under a token index entry it no longer backs. */
  predicate DropsToken(r: Registry, k: Commit, t: string) {
    k.Upserted? && t in r.byToken && r.byToken[t] == k.m.conditionId && t !in k.m.tokens
  }

  lemma UpdateKeepsTokens(m: Market, u: MarketUpdate)
    ensures Apply(m, u).tokens == m.tokens && Apply(m, u).conditionId == m.conditionId
  {}

  /** What a lookup before or after the commit answers. */
  predicate AnswersAsOne(r: Registry, n: Registry, t: string) {
    OverlappedRead(r, n, t) == GetByToken(r, t) || OverlappedRead(r, n, t) == GetByToken(n, t)
  }

  /** One token's entry after a market was stored. */
  lemma IndexAfterStore(r: Registry, m: Market, t: string)
    requires IndexSound(r)
    ensures var index := ReindexField(r.byToken, r.markets.items, m, ByToken);
      && (t in index <==> t in m.tokens || (t in r.byToken && r.byToken[t] != m.conditionId))
      && (t in index ==> index[t] == if t in m.tokens then m.conditionId else r.byToken[t])
  {
    var c := m.conditionId;
    if t in r.byToken && r.byToken[t] == c {
      assert c in r.markets.items && t in KeysOf(ByToken, r.markets.items[c]);
    }
  }

  /** The lookups around the store of m, by what the store did. */
  lemma StoredReads(r: Registry, n: Registry, m: Market, t: string)
    requires Coherent(r) && n.markets == r.markets.Put(m.conditionId, m)
    requires t in n.byToken <==> t in m.tokens || (t in r.byToken && r.byToken[t] != m.conditionId)
    requires t in n.byToken ==> n.byToken[t] == if t in m.tokens then m.conditionId else r.byToken[t]
    requires t in r.byToken ==> r.byToken[t] in r.markets.items && t in r.markets.items[r.byToken[t]].tokens
    ensures AnswersAsOne(r, n, t) <==> !(t in r.byToken && r.byToken[t] == m.conditionId && t !in m.tokens)
    ensures t in r.byToken && r.byToken[t] == m.conditionId ==> OverlappedRead(r, n, t) == Some(m)
  {}

  lemma UpsertReads(r: Registry, m: Market, now: int, t: string)
    requires Coherent(r) && IndexSound(r)
    ensures AnswersAsOne(r, Upsert(r, m, now), t) <==> !DropsToken(r, Upserted(m, now), t)
    ensures DropsToken(r, Upserted(m, now), t) ==> OverlappedRead(r, Upsert(r, m, now), t) == Some(m)
  {
    hide AnswersAsOne, OverlappedRead, ReindexField, Coherent;
    IndexAfterStore(r, m, t);
    StoredReads(r, Upsert(r, m, now), m, t);
  }

  lemma UpdateReads(r: Registry, c: string, u: MarketUpdate, t: string)
    requires Coherent(r) && IndexSound(r)
    ensures AnswersAsOne(r, Update(r, c, u), t)
  {
    if r.Tracks(c) {
      var m := Apply(r.markets.items[c], u);
      UpdateKeepsTokens(r.markets.items[c], u);
      assert r.markets.items[c].conditionId == c;
      hide Apply, AnswersAsOne, OverlappedRead, ReindexField, Coherent;
      IndexAfterStore(r, m, t);
      StoredReads(r, Update(r, c, u), m, t);
    }
  }

  lemma RemoveReads(r: Registry, c: string, t: string)
    requires Coherent(r) && IndexSound(r)
    ensures AnswersAsOne(r, Remove(r, c), t)
  {}

  /** A lookup that overlaps one commit answers as one before or one after it would, except exactly when the
      commit takes the token away from the market it belonged to: then it returns that market, new and without
      the token. */
  lemma OverlappedReadExactly(r: Registry, k: Commit, t: string)
    requires Coherent(r) && IndexSound(r)
    ensures AnswersAsOne(r, Step(r, k), t) <==> !DropsToken(r, k, t)
    ensures DropsToken(r, k, t) ==> OverlappedRead(r, Step(r, k), t) == Some(k.m)
  {
    hide AnswersAsOne, OverlappedRead, Upsert, Update, Remove, Coherent, IndexSound;
    match k
    case Upserted(m, now) => UpsertReads(r, m, now, t);
    case Updated(c, u) => UpdateReads(r, c, u, t);
    case Removed(c) => RemoveReads(r, c, t);
  }
}
