/** The market registry as the shared object: each write copies the indexes, edits the copies key
    by key and publishes them, then tells the listeners. */
module Registry {
  import opened Prelude
  import opened Markets
  import M = RegistryModel

  method DetachKeys(index: map<string, string>, keys: seq<string>, c: string) returns (r: map<string, string>)
    ensures r == M.DetachKeys(index, keys, c)
  {
    r := index;
    var i := 0;
    while i < |keys|
      invariant 0 <= i <= |keys|
      invariant M.DetachKeys(r, keys[i..], c) == M.DetachKeys(index, keys, c)
    {
      assert keys[i..][1..] == keys[i + 1..];
      if keys[i] in r && r[keys[i]] == c {
        r := r - {keys[i]};
      }
      i := i + 1;
    }
  }

  method AttachKeys(index: map<string, string>, keys: seq<string>, c: string, keepFirst: bool) returns (r: map<string, string>)
    ensures r == M.AttachKeys(index, keys, c, keepFirst)
  {
    r := index;
    var i := 0;
    while i < |keys|
      invariant 0 <= i <= |keys|
      invariant M.AttachKeys(r, keys[i..], c, keepFirst) == M.AttachKeys(index, keys, c, keepFirst)
    {
      assert keys[i..][1..] == keys[i + 1..];
      if !(keepFirst && keys[i] in r) {
        r := r[keys[i] := c];
      }
      i := i + 1;
    }
  }

  method ReindexField(index: map<string, string>, items: map<string, Market>, m: Market, f: M.Field)
    returns (r: map<string, string>)
    ensures r == M.ReindexField(index, items, m, f)
  {
    r := index;
    if m.conditionId in items {
      r := DetachKeys(r, M.KeysOf(f, items[m.conditionId]), m.conditionId);
    }
    r := AttachKeys(r, M.KeysOf(f, m), m.conditionId, f == M.ByEventSlug);
  }

  class MarketRegistry {
    var markets: Dict<string, Market>
    var byToken: map<string, string>
    var bySlug: map<string, string>
    var byEventSlug: map<string, string>
    var companions: map<string, nat>
    var firstTracked: map<string, int>
    var nextCompanion: nat
    var notices: seq<M.Notice>  // what the listeners have been told

    function View(): M.Registry
      reads this
    {
      M.Registry(markets, byToken, bySlug, byEventSlug, companions, firstTracked, nextCompanion)
    }

    ghost predicate Valid()
      reads this
    {
      M.Coherent(View()) && M.IndexSound(View())
    }

    constructor ()
      ensures Valid() && View() == M.EMPTY && notices == []
    {
      markets := EmptyDict();
      byToken, bySlug, byEventSlug := map[], map[], map[];
      companions, firstTracked, nextCompanion := map[], map[], 0;
      notices := [];
    }

    method PublishIndexes(m: Market)
      modifies this`markets, this`byToken, this`bySlug, this`byEventSlug
      ensures View() == M.Reindex(old(View()), m)
    {
      var tokens := ReindexField(byToken, markets.items, m, M.ByToken);
      var slugs := ReindexField(bySlug, markets.items, m, M.BySlug);
      var events := ReindexField(byEventSlug, markets.items, m, M.ByEventSlug);
      markets := markets.Put(m.conditionId, m);
      byToken, bySlug, byEventSlug := tokens, slugs, events;
    }

    /** `acquired` is how the wait for the market's lock ended; a timeout skips the write. */
    method Upsert(m: Market, now: int, acquired: bool) returns (stored: Option<Market>)
      requires Valid()
      modifies this
      ensures Valid()
      ensures View() == if acquired then M.Upsert(old(View()), m, now) else old(View())
      ensures stored == if acquired then Some(m) else None
      ensures notices == old(notices) + (if acquired && !old(View()).Tracks(m.conditionId)
                                         then [M.Added(m.conditionId, old(nextCompanion))] else [])
    {
      if !acquired {
        return None;
      }
      hide M.Coherent, M.IndexSound, M.Upsert;
      M.CompanionKnown(View(), m.conditionId);
      M.UpsertKeeps(View(), m, now);
      var isNew, id := m.conditionId !in companions, nextCompanion;
      Store(m, now);
      if isNew {
        notices := notices + [M.Added(m.conditionId, id)];
      }
      return Some(m);
    }

    /** The commit of an upsert. */
    method Store(m: Market, now: int)
      modifies this`markets, this`byToken, this`bySlug, this`byEventSlug, this`companions, this`firstTracked, this`nextCompanion
      ensures View() == M.Upsert(old(View()), m, now)
    {
      PublishIndexes(m);
      if m.conditionId !in companions {
        companions := companions[m.conditionId := nextCompanion];
        firstTracked := firstTracked[m.conditionId := now];
        nextCompanion := nextCompanion + 1;
      }
    }

    method UpdateMarket(c: string, u: MarketUpdate, acquired: bool) returns (updated: Option<Market>)
      requires Valid()
      modifies this
      ensures Valid() && notices == old(notices)
      ensures View() == if acquired then M.Update(old(View()), c, u) else old(View())
      ensures updated == if acquired && old(View()).Tracks(c) then Some(Apply(old(markets).items[c], u)) else None
    {
      hide M.Coherent, M.IndexSound, M.Update, Apply;
      if !acquired || c !in markets.items {
        M.UpdateUnknown(View(), c, u);
        return None;
      }
      M.UpdateKeeps(View(), c, u);
      var m := Amend(c, u);
      return Some(m);
    }

    /** The commit of an update. */
    method Amend(c: string, u: MarketUpdate) returns (m: Market)
      requires c in markets.items
      modifies this`markets, this`byToken, this`bySlug, this`byEventSlug
      ensures View() == M.Update(old(View()), c, u) && m == Apply(old(markets).items[c], u)
    {
      hide Apply, M.Reindex;
      m := Apply(markets.items[c], u);
      PublishIndexes(m);
    }

    method RemoveMarket(c: string, acquired: bool) returns (removed: Option<Market>)
      requires Valid()
      modifies this
      ensures Valid()
      ensures View() == if acquired then M.Remove(old(View()), c) else old(View())
      ensures removed == if acquired then old(markets).Get(c) else None
      ensures notices == old(notices) +
                (if acquired && old(View()).Tracks(c) then [M.Pruned(c, old(companions)[c])] else [])
    {
      if !acquired || c !in markets.items {
        return None;
      }
      hide M.Coherent, M.IndexSound, M.Remove;
      M.CompanionKnown(View(), c);
      M.RemoveKeeps(View(), c);
      var m := markets.items[c];
      var id := companions[c];
      Forget(c);
      notices := notices + [M.Pruned(c, id)];
      return Some(m);
    }

    /** The commit of a removal. */
    method Forget(c: string)
      requires c in markets.items
      modifies this`markets, this`byToken, this`bySlug, this`byEventSlug, this`companions, this`firstTracked
      ensures View() == M.Remove(old(View()), c)
    {
      var m := markets.items[c];
      byToken := DetachKeys(byToken, M.KeysOf(M.ByToken, m), c);
      bySlug := DetachKeys(bySlug, M.KeysOf(M.BySlug, m), c);
      byEventSlug := DetachKeys(byEventSlug, M.KeysOf(M.ByEventSlug, m), c);
      markets := markets.Drop(c);
      companions, firstTracked := companions - {c}, firstTracked - {c};
    }

    method GetByTokenId(t: string) returns (found: Option<Market>)
      requires Valid()
      ensures found == M.GetByToken(View(), t)
      ensures found.Some? ==> t in found.value.tokens && markets.Get(found.value.conditionId) == found
    {
      if t !in byToken {
        return None;
      }
      found := markets.Get(byToken[t]);
    }

    method GetBySlug(s: string) returns (found: Option<Market>)
      requires Valid()
      ensures found == M.GetBySlug(View(), s)
      ensures found.Some? ==> markets.Get(found.value.conditionId) == found && M.Carries(found.value, s)
      ensures s in bySlug ==> found.Some? && found.value.slug == s
      ensures s in byEventSlug ==> found.Some?
    {
      M.SlugLookupSound(View(), s);
      if s in bySlug {
        return markets.Get(bySlug[s]);
      }
      if s in byEventSlug {
        return markets.Get(byEventSlug[s]);
      }
      return None;
    }
  }
}
