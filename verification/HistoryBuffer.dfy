/** The in-memory history of book snapshots: per token a window of samples, over all tokens a bound with the
    least recently recorded token dropped first, and a search for the sample nearest to a moment. */
module HistoryBufferModel {
  import opened Prelude
  import opened Orderbook

  datatype Sample = Sample(at: real, snapshot: Snapshot)

  datatype Entry = Entry(token: string, sample: Sample)

  type Buckets = Dict<string, seq<Sample>>

  /** The popleft loop: samples older than the cut-off leave at the front. */
  function DropOld(s: seq<Sample>, cutoff: real): seq<Sample> {
    if s != [] && s[0].at < cutoff then DropOld(s[1..], cutoff) else s
  }

  lemma {:induction false} FirstDropped<K(!new), V>(d: Dict<K, V>)
    requires d.Valid() && d.order != []
    ensures d.Drop(d.order[0]).order == d.order[1..]
  {
    var k := d.order[0];
    assert d.order[1..] == Without(d.order[1..], k);
  }

  /** The eviction loop: whole buckets leave at the front until the bound holds. */
  function Evict(d: Buckets, maxTokens: nat): Buckets
    requires d.Valid()
    decreases |d.order|
  {
    if |d.order| <= maxTokens then d
    else
      FirstDropped(d);
      Evict(d.Drop(d.order[0]), maxTokens)
  }

  function Touched(d: Buckets, r: Entry, maxAge: real): (n: Buckets)
    requires d.Valid()
    ensures n.Valid()
  {
    var bucket := if r.token in d.items then d.items[r.token] else [];
    d.Drop(r.token).Put(r.token, DropOld(bucket + [r.sample], r.sample.at - maxAge))
  }

  function RecordStep(d: Buckets, r: Entry, maxAge: real, maxTokens: nat): Buckets
    requires d.Valid()
  {
    Evict(Touched(d, r, maxAge), maxTokens)
  }

  // ---- runs ----

  /** The clock is monotonic. */
  ghost predicate InOrder(rs: seq<Entry>) {
    forall i, j :: 0 <= i <= j < |rs| ==> rs[i].sample.at <= rs[j].sample.at
  }

  function Run(rs: seq<Entry>, maxAge: real, maxTokens: nat): (d: Buckets)
    ensures d.Valid()
  {
    if rs == [] then EmptyDict()
    else
      var n := |rs| - 1;
      EvictKeepsLast(Touched(Run(rs[..n], maxAge, maxTokens), rs[n], maxAge), maxTokens);
      RecordStep(Run(rs[..n], maxAge, maxTokens), rs[n], maxAge, maxTokens)
  }

  /** The tokens of a run, each once, the one recorded last at the end. */
  function Recent(rs: seq<Entry>): (tokens: seq<string>)
    ensures NoDup(tokens)
  {
    if rs == [] then []
    else
      var n := |rs| - 1;
      Without(Recent(rs[..n]), rs[n].token) + [rs[n].token]
  }

  function LastOf<T>(s: seq<T>, m: nat): seq<T> {
    if |s| <= m then s else s[|s| - m..]
  }

  function SamplesOf(rs: seq<Entry>, t: string): seq<Sample> {
    if rs == [] then []
    else
      var n := |rs| - 1;
      if rs[n].token == t then SamplesOf(rs[..n], t) + [rs[n].sample] else SamplesOf(rs[..n], t)
  }

  function YoungEnough(s: seq<Sample>, maxAge: real): seq<Sample> {
    if s == [] then [] else DropOld(s, s[|s| - 1].at - maxAge)
  }

  /** What an unbounded history would show: a token's samples no older than its last one less the age. */
  function Window(rs: seq<Entry>, t: string, maxAge: real): seq<Sample> {
    YoungEnough(SamplesOf(rs, t), maxAge)
  }

  // ---- which tokens are kept ----

  lemma LastOfTail<T>(s: seq<T>, m: nat)
    requires |s| > m
    ensures LastOf(s[1..], m) == LastOf(s, m)
  {}

  lemma {:induction false} EvictKeepsLast(d: Buckets, m: nat)
    requires d.Valid()
    ensures Evict(d, m).Valid() && Evict(d, m).order == LastOf(d.order, m)
    decreases |d.order|
  {
    if |d.order| > m {
      FirstDropped(d);
      EvictKeepsLast(d.Drop(d.order[0]), m);
      LastOfTail(d.order, m);
      hide LastOf, Without, NoDup;
    }
  }

  lemma {:induction false} EvictKeepsBuckets(d: Buckets, m: nat, t: string)
    requires d.Valid() && t in Evict(d, m).items
    ensures t in d.items && Evict(d, m).items[t] == d.items[t]
    decreases |d.order|
  {
    if |d.order| > m {
      FirstDropped(d);
      EvictKeepsBuckets(d.Drop(d.order[0]), m, t);
    }
  }

  lemma LastOfConcat<T>(a: seq<T>, b: seq<T>, m: nat)
    requires |b| >= m
    ensures LastOf(a + b, m) == LastOf(b, m)
  {}

  lemma LastOfSplit<T(!new)>(front: seq<T>, back: seq<T>, x: T, m: nat)
    requires |Without(back, x)| + 1 >= m
    ensures LastOf(Without(front + back, x) + [x], m) == LastOf(Without(back, x) + [x], m)
  {
    WithoutSplit(front, back, x);
    hide Without, LastOf;
    var a, b := Without(front, x), Without(back, x);
    assert Without(front + back, x) + [x] == a + (b + [x]);
    LastOfConcat(a, b + [x], m);
  }

  lemma LastOfAppend<T(!new)>(r: seq<T>, x: T, m: nat)
    requires NoDup(r)
    ensures LastOf(Without(LastOf(r, m), x) + [x], m) == LastOf(Without(r, x) + [x], m)
  {
    if |r| > m {
      var front, back := r[..|r| - m], r[|r| - m..];
      assert r == front + back && NoDup(back) && LastOf(r, m) == back;
      hide Without, LastOf, NoDup;
      WithoutLength(back, x);
      LastOfSplit(front, back, x, m);
    }
  }

  lemma {:induction false} WithoutLength<T(!new)>(s: seq<T>, x: T)
    requires NoDup(s)
    ensures |Without(s, x)| == if x in s then |s| - 1 else |s|
  {
    if s != [] {
      assert NoDup(s[1..]);
      WithoutLength(s[1..], x);
    }
  }

  /** The kept tokens, in order, are exactly the most recently recorded ones. */
  lemma {:induction false} KeepsMostRecent(rs: seq<Entry>, maxAge: real, m: nat)
    ensures Run(rs, maxAge, m).order == LastOf(Recent(rs), m)
  {
    if rs != [] {
      var n := |rs| - 1;
      KeepsMostRecent(rs[..n], maxAge, m);
      var d, r := Run(rs[..n], maxAge, m), rs[n];
      TouchedOrder(d, r, maxAge);
      EvictKeepsLast(Touched(d, r, maxAge), m);
      LastOfAppend(Recent(rs[..n]), r.token, m);
    }
  }

  lemma Reinsert<K, V>(m: map<K, V>, k: K, v: V)
    ensures (m - {k})[k := v] == m[k := v]
  {}

  function NewBucket(d: Buckets, r: Entry, maxAge: real): seq<Sample> {
    DropOld((if r.token in d.items then d.items[r.token] else []) + [r.sample], r.sample.at - maxAge)
  }

  lemma TouchedOrder(d: Buckets, r: Entry, maxAge: real)
    requires d.Valid()
    ensures Touched(d, r, maxAge).order == Without(d.order, r.token) + [r.token]
    ensures Touched(d, r, maxAge).items == d.items[r.token := NewBucket(d, r, maxAge)]
  {
    hide DropOld, Without;
    Reinsert(d.items, r.token, NewBucket(d, r, maxAge));
  }

  // ---- what each bucket holds ----

  ghost predicate Sorted(s: seq<Sample>) {
    forall i, j :: 0 <= i <= j < |s| ==> s[i].at <= s[j].at
  }

  ghost predicate SuffixOf(a: seq<Sample>, b: seq<Sample>) {
    |a| <= |b| && a == b[|b| - |a|..]
  }

  /** w holds exactly those of s that are not older than the cut-off. */
  ghost predicate Exactly(w: seq<Sample>, s: seq<Sample>, cutoff: real) {
    forall x :: x in w <==> x in s && x.at >= cutoff
  }

  lemma ExactlyAt(w: seq<Sample>, s: seq<Sample>, cutoff: real, x: Sample)
    requires Exactly(w, s, cutoff)
    ensures x in w <==> x in s && x.at >= cutoff
  {}

  lemma {:induction false} DropOldExactly(s: seq<Sample>, cutoff: real)
    requires Sorted(s)
    ensures SuffixOf(DropOld(s, cutoff), s)
    ensures Exactly(DropOld(s, cutoff), s, cutoff)
  {
    if s != [] && s[0].at < cutoff {
      DropOldExactly(s[1..], cutoff);
      assert forall x :: x in s <==> x == s[0] || x in s[1..];
    } else {
      assert forall x :: x in s ==> exists i :: 0 <= i < |s| && s[i] == x;
    }
  }

  lemma {:induction false} DropOldTwice(s: seq<Sample>, c: real, d: real)
    requires c <= d
    ensures DropOld(DropOld(s, c), d) == DropOld(s, d)
  {
    if s != [] && s[0].at < c {
      DropOldTwice(s[1..], c, d);
    }
  }

  lemma {:induction false} DropOldAppend(s: seq<Sample>, x: Sample, c: real)
    requires x.at >= c
    ensures DropOld(s + [x], c) == DropOld(s, c) + [x]
  {
    if s != [] {
      assert (s + [x])[1..] == s[1..] + [x];
      DropOldAppend(s[1..], x, c);
    }
  }

  lemma {:induction false} DropOldSuffix(a: seq<Sample>, b: seq<Sample>, c: real)
    requires SuffixOf(a, b) && Sorted(b)
    ensures SuffixOf(DropOld(a, c), DropOld(b, c))
  {
    if |a| < |b| {
      assert SuffixOf(a, b[1..]);
      if b[0].at < c {
        DropOldSuffix(a, b[1..], c);
      } else {
        assert a == [] || a[0] == b[|b| - |a|];
      }
    }
  }

  lemma {:induction false} SamplesInOrder(rs: seq<Entry>, t: string)
    requires InOrder(rs)
    ensures Sorted(SamplesOf(rs, t))
    ensures forall x :: x in SamplesOf(rs, t) ==> exists i :: 0 <= i < |rs| && rs[i] == Entry(t, x)
  {
    if rs != [] {
      var n := |rs| - 1;
      SamplesInOrder(rs[..n], t);
      var before := SamplesOf(rs[..n], t);
      forall x | x in before ensures x.at <= rs[n].sample.at && exists i :: 0 <= i < |rs| && rs[i] == Entry(t, x) {
        var i :| 0 <= i < n && rs[..n][i] == Entry(t, x);
        assert rs[i] == Entry(t, x);
      }
      assert forall i :: 0 <= i < |before| ==> before[i] in before;
      if rs[n].token == t {
        assert rs[n] == Entry(t, rs[n].sample);
      }
    }
  }

  lemma SamplesSorted(rs: seq<Entry>, t: string)
    requires InOrder(rs)
    ensures Sorted(SamplesOf(rs, t))
  {
    SamplesInOrder(rs, t);
  }

  lemma SuffixFacts(a: seq<Sample>, b: seq<Sample>)
    requires SuffixOf(a, b) && Sorted(b)
    ensures Sorted(a) && (a != [] ==> a[|a| - 1] == b[|b| - 1])
  {
    assert forall i :: 0 <= i < |a| ==> a[i] == b[|b| - |a| + i];
  }

  /** In time order, spanning at most the age, ending with the last sample; what is left out is older. */
  ghost predicate WindowOf(w: seq<Sample>, s: seq<Sample>, maxAge: real)
    requires s != []
  {
    && w != [] && w[|w| - 1] == s[|s| - 1] && Sorted(w) && SuffixOf(w, s)
    && Exactly(w, s, s[|s| - 1].at - maxAge)
    && w[|w| - 1].at - w[0].at <= maxAge
  }

  lemma DropOldShape(s: seq<Sample>, maxAge: real)
    requires s != [] && Sorted(s) && maxAge >= 0.0
    ensures WindowOf(DropOld(s, s[|s| - 1].at - maxAge), s, maxAge)
  {
    hide Sorted, SuffixOf, Exactly, DropOld;
    var last := s[|s| - 1];
    var w := DropOld(s, last.at - maxAge);
    DropOldExactly(s, last.at - maxAge);
    ExactlyAt(w, s, last.at - maxAge, last);
    assert w != [];
    SuffixFacts(w, s);
    ExactlyAt(w, s, last.at - maxAge, w[0]);
  }

  /** An unbounded history's window is what it is meant to be. */
  lemma WindowShape(rs: seq<Entry>, t: string, maxAge: real)
    requires InOrder(rs) && maxAge >= 0.0 && SamplesOf(rs, t) != []
    ensures WindowOf(Window(rs, t, maxAge), SamplesOf(rs, t), maxAge)
  {
    hide SamplesOf, DropOld, Sorted, SuffixOf, InOrder, WindowOf;
    SamplesSorted(rs, t);
    DropOldShape(SamplesOf(rs, t), maxAge);
  }

  /** The record comes no earlier than the token's samples so far. */
  lemma ComesLast(rs: seq<Entry>)
    requires rs != [] && InOrder(rs)
    ensures var n := |rs| - 1;
      var s := SamplesOf(rs[..n], rs[n].token);
      Sorted(s) && (s != [] ==> s[|s| - 1].at <= rs[n].sample.at)
  {
    var n := |rs| - 1;
    var s := SamplesOf(rs[..n], rs[n].token);
    SamplesInOrder(rs[..n], rs[n].token);
    hide SamplesOf, Sorted;
    if s != [] {
      assert s[|s| - 1] in s;
      var i :| 0 <= i < n && rs[..n][i] == Entry(rs[n].token, s[|s| - 1]);
      assert rs[i].sample == s[|s| - 1];
    }
  }

  lemma YoungEnoughStep(s: seq<Sample>, x: Sample, maxAge: real)
    requires maxAge >= 0.0 && (s != [] ==> s[|s| - 1].at <= x.at)
    ensures YoungEnough(s + [x], maxAge) == DropOld(YoungEnough(s, maxAge) + [x], x.at - maxAge)
  {
    hide DropOld;
    if s == [] {
      assert s + [x] == [] + [x];
    } else {
      var last := s[|s| - 1];
      DropOldTwice(s, last.at - maxAge, x.at - maxAge);
      DropOldAppend(s, x, x.at - maxAge);
      DropOldAppend(DropOld(s, last.at - maxAge), x, x.at - maxAge);
    }
  }

  /** One record moves a token's window on. */
  lemma WindowStep(rs: seq<Entry>, maxAge: real)
    requires rs != [] && InOrder(rs) && maxAge >= 0.0
    ensures var n := |rs| - 1;
      Window(rs, rs[n].token, maxAge) ==
        DropOld(Window(rs[..n], rs[n].token, maxAge) + [rs[n].sample], rs[n].sample.at - maxAge)
  {
    hide DropOld, YoungEnough, InOrder, Sorted;
    var n := |rs| - 1;
    ComesLast(rs);
    YoungEnoughStep(SamplesOf(rs[..n], rs[n].token), rs[n].sample, maxAge);
  }

  lemma SuffixAppend(a: seq<Sample>, b: seq<Sample>, x: Sample)
    requires SuffixOf(a, b)
    ensures SuffixOf(a + [x], b + [x])
  {}

  lemma SuffixMovesOn(a: seq<Sample>, b: seq<Sample>, x: Sample, c: real)
    requires SuffixOf(a, b) && Sorted(b + [x]) && x.at >= c
    ensures SuffixOf(DropOld(a + [x], c), DropOld(b + [x], c)) && DropOld(a + [x], c) != []
  {
    hide DropOld;
    SuffixAppend(a, b, x);
    DropOldSuffix(a + [x], b + [x], c);
    DropOldAppend(a, x, c);
  }

  lemma TouchedBucket(rs: seq<Entry>, d: Buckets, maxAge: real)
    requires rs != [] && InOrder(rs) && maxAge >= 0.0
    requires var t := rs[|rs| - 1].token; t in d.items ==> SuffixOf(d.items[t], Window(rs[..|rs| - 1], t, maxAge))
    ensures var r := rs[|rs| - 1];
      && SuffixOf(NewBucket(d, r, maxAge), Window(rs, r.token, maxAge))
      && NewBucket(d, r, maxAge) != []
  {
    hide Window, DropOld, SuffixOf, Sorted, InOrder;
    var n := |rs| - 1;
    var r := rs[n];
    var bucket, w := if r.token in d.items then d.items[r.token] else [], Window(rs[..n], r.token, maxAge);
    NothingIsSuffix(w);
    WindowGrows(rs, maxAge);
    SuffixMovesOn(bucket, w, r.sample, r.sample.at - maxAge);
    WindowStep(rs, maxAge);
  }

  lemma NothingIsSuffix(w: seq<Sample>)
    ensures SuffixOf([], w)
  {}

  lemma SortedAppend(w: seq<Sample>, x: Sample)
    requires Sorted(w) && (w != [] ==> w[|w| - 1].at <= x.at)
    ensures Sorted(w + [x])
  {}

  lemma WindowGrows(rs: seq<Entry>, maxAge: real)
    requires rs != [] && InOrder(rs) && maxAge >= 0.0
    ensures var n := |rs| - 1; Sorted(Window(rs[..n], rs[n].token, maxAge) + [rs[n].sample])
  {
    hide SamplesOf, DropOld, Sorted, InOrder, SuffixOf, Exactly;
    var n := |rs| - 1;
    var s := SamplesOf(rs[..n], rs[n].token);
    ComesLast(rs);
    if s != [] {
      DropOldShape(s, maxAge);
    }
    SortedAppend(Window(rs[..n], rs[n].token, maxAge), rs[n].sample);
  }

  lemma OtherWindow(rs: seq<Entry>, t: string, maxAge: real)
    requires rs != [] && rs[|rs| - 1].token != t
    ensures Window(rs, t, maxAge) == Window(rs[..|rs| - 1], t, maxAge)
  {}

  /** Every kept bucket is a non-empty end of the token's window: it lacks only what an eviction took. */
  lemma {:induction false} BucketsRefineWindow(rs: seq<Entry>, t: string, maxAge: real, m: nat)
    requires InOrder(rs) && maxAge >= 0.0 && t in Run(rs, maxAge, m).items
    ensures var bucket := Run(rs, maxAge, m).items[t]; bucket != [] && SuffixOf(bucket, Window(rs, t, maxAge))
  {
    if rs != [] {
      var n := |rs| - 1;
      var d, r := Run(rs[..n], maxAge, m), rs[n];
      hide Run, DropOld, Window, SuffixOf, NewBucket;
      RunBucket(rs, t, maxAge, m);
      if r.token in d.items {
        BucketsRefineWindow(rs[..n], r.token, maxAge, m);
      }
      TouchedBucket(rs, d, maxAge);
      if t != r.token {
        OtherWindow(rs, t, maxAge);
        BucketsRefineWindow(rs[..n], t, maxAge, m);
      }
    }
  }

  lemma SuffixStarts(a: seq<Sample>, b: seq<Sample>)
    requires SuffixOf(a, b) && Sorted(b) && a != []
    ensures b[0].at <= a[0].at
  {}

  lemma {:induction false} NoSamplesNoWindow(rs: seq<Entry>, t: string, maxAge: real)
    requires Window(rs, t, maxAge) != []
    ensures SamplesOf(rs, t) != []
  {}

  /** So it is in time order, spans at most the age and ends with the token's last record. */
  lemma BucketShape(rs: seq<Entry>, t: string, maxAge: real, m: nat)
    requires InOrder(rs) && maxAge >= 0.0 && t in Run(rs, maxAge, m).items
    ensures var bucket, s := Run(rs, maxAge, m).items[t], SamplesOf(rs, t);
      && bucket != [] && s != [] && bucket[|bucket| - 1] == s[|s| - 1] && Sorted(bucket)
      && bucket[|bucket| - 1].at - bucket[0].at <= maxAge
  {
    BucketsRefineWindow(rs, t, maxAge, m);
    var bucket, w := Run(rs, maxAge, m).items[t], Window(rs, t, maxAge);
    assert w != [];
    NoSamplesNoWindow(rs, t, maxAge);
    hide Run, Window, SamplesOf, Sorted, SuffixOf, InOrder, Exactly;
    WindowShape(rs, t, maxAge);
    SuffixFacts(bucket, w);
    SuffixStarts(bucket, w);
  }

  lemma {:induction false} RecentGrows(rs: seq<Entry>)
    requires rs != []
    ensures |Recent(rs[..|rs| - 1])| <= |Recent(rs)|
    ensures forall t :: t in Recent(rs) <==> t in Recent(rs[..|rs| - 1]) || t == rs[|rs| - 1].token
  {
    var n := |rs| - 1;
    WithoutLength(Recent(rs[..n]), rs[n].token);
  }

  /** A run that has not named more tokens than are kept evicts nothing. */
  lemma NothingEvicted(rs: seq<Entry>, maxAge: real, m: nat)
    requires rs != [] && |Recent(rs)| <= m
    ensures var n := |rs| - 1;
      var d := Run(rs[..n], maxAge, m);
      && |Recent(rs[..n])| <= m && (forall t :: t in d.items <==> t in Recent(rs[..n]))
      && Run(rs, maxAge, m).items == d.items[rs[n].token := NewBucket(d, rs[n], maxAge)]
  {
    var n := |rs| - 1;
    var d, r := Run(rs[..n], maxAge, m), rs[n];
    RecentGrows(rs);
    KeepsMostRecent(rs, maxAge, m);
    KeepsMostRecent(rs[..n], maxAge, m);
    TouchedOrder(d, r, maxAge);
    EvictKeepsLast(Touched(d, r, maxAge), m);
    hide Recent, Touched, NewBucket;
  }

  /** While the run has not named more tokens than are kept, every token's bucket is its whole window. */
  lemma {:induction false} NothingEvictedIsExact(rs: seq<Entry>, t: string, maxAge: real, m: nat)
    requires InOrder(rs) && maxAge >= 0.0 && |Recent(rs)| <= m && t in Recent(rs)
    ensures t in Run(rs, maxAge, m).items && Run(rs, maxAge, m).items[t] == Window(rs, t, maxAge)
  {
    assert rs != [];
    var n := |rs| - 1;
    NothingEvicted(rs, maxAge, m);
    RecentGrows(rs);
    WindowStep(rs, maxAge);
    assert InOrder(rs[..n]);
    hide Run, Recent, Window, DropOld, InOrder;
    if t != rs[n].token {
      OtherWindow(rs, t, maxAge);
      NothingEvictedIsExact(rs[..n], t, maxAge, m);
    } else if t in Recent(rs[..n]) {
      NothingEvictedIsExact(rs[..n], t, maxAge, m);
    } else {
      NeverRecordedNoWindow(rs[..n], t, maxAge);
    }
  }

  lemma NeverRecordedNoWindow(rs: seq<Entry>, t: string, maxAge: real)
    requires t !in Recent(rs)
    ensures Window(rs, t, maxAge) == []
  {
    NeverRecorded(rs, t);
  }

  lemma {:induction false} NeverRecorded(rs: seq<Entry>, t: string)
    requires t !in Recent(rs)
    ensures SamplesOf(rs, t) == []
  {
    if rs != [] {
      RecentGrows(rs);
      NeverRecorded(rs[..|rs| - 1], t);
    }
  }

  // ---- what a token's last sample is ----

  predicate Kept(rs: seq<Entry>, t: string, m: nat) { t in LastOf(Recent(rs), m) }

  lemma DropOne(x: Sample, cutoff: real)
    requires x.at < cutoff
    ensures DropOld([x], cutoff) == []
  {
    assert [x][1..] == [];
  }

  lemma NegativeAgeEmpties(d: Buckets, r: Entry, maxAge: real)
    requires maxAge < 0.0 && (r.token in d.items ==> d.items[r.token] == [])
    ensures NewBucket(d, r, maxAge) == []
  {
    DropOne(r.sample, r.sample.at - maxAge);
    assert [] + [r.sample] == [r.sample];
  }

  /** A kept bucket after one more record. */
  lemma RunBucket(rs: seq<Entry>, t: string, maxAge: real, m: nat)
    requires rs != [] && t in Run(rs, maxAge, m).items
    ensures var n := |rs| - 1;
      var d, r := Run(rs[..n], maxAge, m), rs[n];
      && (t != r.token ==> t in d.items)
      && Run(rs, maxAge, m).items[t] == if t == r.token then NewBucket(d, r, maxAge) else d.items[t]
  {
    var n := |rs| - 1;
    var d, r := Run(rs[..n], maxAge, m), rs[n];
    TouchedOrder(d, r, maxAge);
    hide Touched, NewBucket;
    EvictKeepsBuckets(Touched(d, r, maxAge), m, t);
  }

  /** With a negative age every sample is too old at once, and all buckets stay empty. */
  lemma {:induction false} NegativeAgeKeepsNothing(rs: seq<Entry>, t: string, maxAge: real, m: nat)
    requires maxAge < 0.0 && t in Run(rs, maxAge, m).items
    ensures Run(rs, maxAge, m).items[t] == []
  {
    if rs != [] {
      var n := |rs| - 1;
      var d, r := Run(rs[..n], maxAge, m), rs[n];
      hide Run, NewBucket;
      RunBucket(rs, t, maxAge, m);
      if t in d.items {
        NegativeAgeKeepsNothing(rs[..n], t, maxAge, m);
      }
      if t == r.token {
        NegativeAgeEmpties(d, r, maxAge);
      }
    }
  }

  /** The latest snapshot a run leaves for a token: its last record's, if the token is among those kept. */
  function LatestOf(rs: seq<Entry>, t: string, maxAge: real, m: nat): Option<Snapshot> {
    var s := SamplesOf(rs, t);
    if maxAge < 0.0 || !Kept(rs, t, m) || s == [] then None else Some(s[|s| - 1].snapshot)
  }

  function LastSnapshot(d: Buckets, t: string): Option<Snapshot> {
    if t in d.items && d.items[t] != [] then Some(d.items[t][|d.items[t]| - 1].snapshot) else None
  }

  lemma KeptTokens(rs: seq<Entry>, t: string, maxAge: real, m: nat)
    ensures t in Run(rs, maxAge, m).items <==> Kept(rs, t, m)
  {
    KeepsMostRecent(rs, maxAge, m);
    hide Run, Recent, LastOf;
  }

  lemma LastOfBucket(rs: seq<Entry>, t: string, maxAge: real, m: nat)
    requires InOrder(rs) && maxAge >= 0.0 && t in Run(rs, maxAge, m).items
    ensures var bucket, s := Run(rs, maxAge, m).items[t], SamplesOf(rs, t);
      bucket != [] && s != [] && bucket[|bucket| - 1] == s[|s| - 1]
  {
    hide Run, SamplesOf, Sorted, InOrder;
    BucketShape(rs, t, maxAge, m);
  }

  lemma LatestIsLastRecord(rs: seq<Entry>, t: string, maxAge: real, m: nat)
    requires InOrder(rs)
    ensures LastSnapshot(Run(rs, maxAge, m), t) == LatestOf(rs, t, maxAge, m)
  {
    hide Run, SamplesOf, InOrder, Kept;
    KeptTokens(rs, t, maxAge, m);
    if t in Run(rs, maxAge, m).items {
      if maxAge < 0.0 {
        NegativeAgeKeepsNothing(rs, t, maxAge, m);
      } else {
        LastOfBucket(rs, t, maxAge, m);
      }
    }
  }

  /** The state after one more record, which is the most recent one. */
  lemma RunExtends(rs: seq<Entry>, r: Entry, maxAge: real, m: nat)
    requires InOrder(rs) && (rs != [] ==> rs[|rs| - 1].sample.at <= r.sample.at)
    ensures InOrder(rs + [r]) && Run(rs + [r], maxAge, m) == RecordStep(Run(rs, maxAge, m), r, maxAge, m)
    ensures var order := Run(rs + [r], maxAge, m).order; m > 0 ==> order != [] && order[|order| - 1] == r.token
  {
    assert (rs + [r])[..|rs|] == rs;
    KeepsMostRecent(rs + [r], maxAge, m);
    hide RecordStep;
    assert Recent(rs + [r])[|Recent(rs + [r])| - 1] == r.token;
  }

  /** Over a kept bucket the early exit is the full scan when its stamps repeat only at the end. */
  lemma BucketSearch(rs: seq<Entry>, t: string, maxAge: real, m: nat, target: real)
    requires InOrder(rs) && maxAge >= 0.0 && t in Run(rs, maxAge, m).items
    ensures var bucket := Run(rs, maxAge, m).items[t];
      bucket != [] && (TiesOnlyLast(bucket) ==> EarlyExit(bucket, target, 0) == FullScan(bucket, target))
  {
    hide Run, SamplesOf, Sorted, InOrder, TiesOnlyLast, EarlyExit, FullScan;
    BucketShape(rs, t, maxAge, m);
    if TiesOnlyLast(Run(rs, maxAge, m).items[t]) {
      EarlyExitSuffices(Run(rs, maxAge, m).items[t], target);
    }
  }

  // ---- the nearest sample ----

  function Distance(x: Sample, target: real): real { AbsReal(x.at - target) }

  /** The early-exit scan from position k on, `best` being the nearest so far: it stops at the first sample that
      is no nearer. */
  function EarlyExit(s: seq<Sample>, target: real, best: nat): (k: nat)
    requires best < |s|
    ensures best <= k < |s|
    decreases |s| - best
  {
    if best + 1 < |s| && Distance(s[best + 1], target) < Distance(s[best], target) then EarlyExit(s, target, best + 1) else best
  }

  /** The scan of all samples. */
  function FullScan(s: seq<Sample>, target: real): nat
    requires s != []
    ensures FullScan(s, target) < |s|
  {
    if |s| == 1 then 0
    else
      var n := |s| - 1;
      var best := FullScan(s[..n], target);
      if Distance(s[n], target) < Distance(s[best], target) then n else best
  }

  /** Stamps may repeat only at the very end. */
  ghost predicate TiesOnlyLast(s: seq<Sample>) {
    forall i :: 0 <= i < |s| - 1 && s[i].at == s[i + 1].at ==> s[i].at == s[|s| - 1].at
  }

  lemma {:induction false} FullScanIsFirstNearest(s: seq<Sample>, target: real)
    requires s != []
    ensures var k := FullScan(s, target);
      && (forall j :: 0 <= j < |s| ==> Distance(s[k], target) <= Distance(s[j], target))
      && (forall j :: 0 <= j < k ==> Distance(s[k], target) < Distance(s[j], target))
  {
    if |s| > 1 {
      FullScanIsFirstNearest(s[..|s| - 1], target);
    }
  }

  lemma {:induction false} EarlyExitDescends(s: seq<Sample>, target: real, from: nat)
    requires from < |s|
    ensures var k := EarlyExit(s, target, from);
      && from <= k < |s|
      && (forall j :: from <= j < k ==> Distance(s[j + 1], target) < Distance(s[j], target))
      && (k + 1 < |s| ==> Distance(s[k + 1], target) >= Distance(s[k], target))
    decreases |s| - from
  {
    if from + 1 < |s| && Distance(s[from + 1], target) < Distance(s[from], target) {
      EarlyExitDescends(s, target, from + 1);
    }
  }

  lemma {:induction false} DescentIsStrict(s: seq<Sample>, target: real, i: nat, k: nat)
    requires i < k < |s| && forall j :: i <= j < k ==> Distance(s[j + 1], target) < Distance(s[j], target)
    ensures Distance(s[k], target) < Distance(s[i], target)
    decreases k - i
  {
    if i + 1 < k {
      DescentIsStrict(s, target, i + 1, k);
    }
  }

  lemma FirstNearestIsUnique(s: seq<Sample>, target: real, k: nat)
    requires k < |s|
    requires forall j :: 0 <= j < |s| ==> Distance(s[k], target) <= Distance(s[j], target)
    requires forall j :: 0 <= j < k ==> Distance(s[k], target) < Distance(s[j], target)
    ensures FullScan(s, target) == k
  {
    FullScanIsFirstNearest(s, target);
  }

  /** Stopping early finds what the full scan finds, for every moment asked for, exactly when stamps repeat only
      at the end; strictly increasing stamps are the common case. */
  lemma EarlyExitExactly(s: seq<Sample>)
    requires s != [] && Sorted(s)
    ensures (forall target :: EarlyExit(s, target, 0) == FullScan(s, target)) <==> TiesOnlyLast(s)
  {
    if TiesOnlyLast(s) {
      forall target ensures EarlyExit(s, target, 0) == FullScan(s, target) {
        EarlyExitSuffices(s, target);
      }
    } else {
      var i :| 0 <= i < |s| - 1 && s[i].at == s[i + 1].at && s[i].at != s[|s| - 1].at;
      EarlyExitMisses(s, i);
    }
  }

  lemma EarlyExitSuffices(s: seq<Sample>, target: real)
    requires s != [] && Sorted(s) && TiesOnlyLast(s)
    ensures EarlyExit(s, target, 0) == FullScan(s, target)
  {
    var k := EarlyExit(s, target, 0);
    EarlyExitDescends(s, target, 0);
    forall j | 0 <= j < |s|
      ensures Distance(s[k], target) <= Distance(s[j], target)
      ensures j < k ==> Distance(s[k], target) < Distance(s[j], target)
    {
      if j < k {
        DescentIsStrict(s, target, j, k);
      } else if j > k {
        assert s[k].at <= s[k + 1].at <= s[j].at <= s[|s| - 1].at;
      }
    }
    FirstNearestIsUnique(s, target, k);
  }

  /** At an inner tie the scan stops, even when it is asked for the last sample's own stamp. */
  lemma EarlyExitMisses(s: seq<Sample>, i: nat)
    requires i < |s| - 1 && Sorted(s) && s[i].at == s[i + 1].at && s[i].at != s[|s| - 1].at
    ensures EarlyExit(s, s[|s| - 1].at, 0) != FullScan(s, s[|s| - 1].at)
  {
    var target := s[|s| - 1].at;
    var k := EarlyExit(s, target, 0);
    EarlyExitDescends(s, target, 0);
    FullScanIsFirstNearest(s, target);
    assert Distance(s[FullScan(s, target)], target) <= Distance(s[|s| - 1], target) == 0.0;
    assert Distance(s[i + 1], target) == Distance(s[i], target);
    assert k <= i && s[k].at <= s[i].at < target;
  }
}

/** The buffer as its methods change it. */
module HistoryBuffer {
  import opened Prelude
  import opened Orderbook
  import opened HistoryBufferModel

  class OrderbookHistoryBuffer {
    var buffers: Buckets
    const maxAge: real
    const maxTokens: nat
    ghost var history: seq<Entry>  // everything recorded

    /** The buckets are what the run of all records leaves. */
    ghost predicate Valid()
      reads this
    {
      InOrder(history) && buffers == Run(history, maxAge, maxTokens)
    }

    constructor (maxAge: real, maxTokens: nat)
      ensures Valid() && history == [] && this.maxAge == maxAge && this.maxTokens == maxTokens
    {
      this.buffers, this.maxAge, this.maxTokens, this.history := EmptyDict(), maxAge, maxTokens, [];
    }

    method Touch(token: string, snapshot: Snapshot, now: real)
      requires buffers.Valid()
      modifies this`buffers
      ensures buffers == Touched(old(buffers), Entry(token, Sample(now, snapshot)), maxAge)
    {
      var bucket := if token in buffers.items then buffers.items[token] else [];
      bucket := bucket + [Sample(now, snapshot)];
      ghost var whole := bucket;
      while bucket != [] && bucket[0].at < now - maxAge
        invariant DropOld(bucket, now - maxAge) == DropOld(whole, now - maxAge)
        decreases |bucket|
      {
        bucket := bucket[1..];
      }
      buffers := buffers.Drop(token).Put(token, bucket);
    }

    method EvictOldest()
      requires buffers.Valid()
      modifies this`buffers
      ensures buffers == Evict(old(buffers), maxTokens)
    {
      ghost var touched := buffers;
      while |buffers.order| > maxTokens
        invariant buffers.Valid() && Evict(buffers, maxTokens) == Evict(touched, maxTokens)
        decreases |buffers.order|
      {
        FirstDropped(buffers);
        buffers := buffers.Drop(buffers.order[0]);
      }
    }

    /** The clock is monotonic. */
    method Record(token: string, snapshot: Snapshot, now: real)
      requires Valid() && (history != [] ==> history[|history| - 1].sample.at <= now)
      modifies this
      ensures Valid() && history == old(history) + [Entry(token, Sample(now, snapshot))]
      ensures maxTokens > 0 ==> buffers.order != [] && buffers.order[|buffers.order| - 1] == token
    {
      ghost var entry := Entry(token, Sample(now, snapshot));
      RunExtends(history, entry, maxAge, maxTokens);
      hide Run, InOrder, Touched, Evict;
      Touch(token, snapshot, now);
      EvictOldest();
      history := history + [entry];
    }

    /** The last record of the token, as long as it is among the most recently recorded ones. */
    method Latest(token: string) returns (found: Option<Snapshot>)
      requires Valid()
      ensures found == LatestOf(history, token, maxAge, maxTokens)
    {
      hide Run, LatestOf, InOrder;
      LatestIsLastRecord(history, token, maxAge, maxTokens);
      if token in buffers.items && buffers.items[token] != [] {
        var bucket := buffers.items[token];
        return Some(bucket[|bucket| - 1].snapshot);
      }
      return None;
    }

    /** The early-exit search over the bucket; with stamps that repeat only at the end it is the first of the
        samples nearest to the moment asked for. */
    method SnapshotAt(token: string, ago: real, now: real) returns (found: Option<Snapshot>)
      requires Valid()
      ensures found.None? <==> token !in buffers.items || buffers.items[token] == []
      ensures found.Some? ==> found == Some(buffers.items[token][EarlyExit(buffers.items[token], now - ago, 0)].snapshot)
      ensures found.Some? && maxAge >= 0.0 && TiesOnlyLast(buffers.items[token]) ==>
                found == Some(buffers.items[token][FullScan(buffers.items[token], now - ago)].snapshot)
    {
      hide Run, InOrder, EarlyExit, FullScan, TiesOnlyLast;
      if token !in buffers.items || buffers.items[token] == [] {
        return None;
      }
      found := FindSnapshotAt(buffers.items[token], now - ago);
      if maxAge >= 0.0 {
        BucketSearch(history, token, maxAge, maxTokens, now - ago);
      }
    }
  }

  /** The loop over the samples: the first always beats the infinite distance it starts from. */
  method FindSnapshotAt(samples: seq<Sample>, target: real) returns (found: Option<Snapshot>)
    ensures found == if samples == [] then None else Some(samples[EarlyExit(samples, target, 0)].snapshot)
  {
    if samples == [] {
      return None;
    }
    var best := samples[0].snapshot;
    var bestDistance := Distance(samples[0], target);
    var i := 1;
    while i < |samples|
      invariant 1 <= i <= |samples|
      invariant best == samples[i - 1].snapshot && bestDistance == Distance(samples[i - 1], target)
      invariant EarlyExit(samples, target, i - 1) == EarlyExit(samples, target, 0)
    {
      var distance := Distance(samples[i], target);
      if distance < bestDistance {
        bestDistance := distance;
        best := samples[i].snapshot;
      } else {
        break;
      }
      i := i + 1;
    }
    return Some(best);
  }
}
