/** A histogram's bucket counts against the observations they stand for, and the cumulative lines exposed
    from them ("Histograms and summaries" of the Prometheus text exposition format). */
module HistogramModel {
  import opened Prelude

  datatype Bound = At(value: real) | PlusInf

  predicate Fits(v: real, b: Bound) { b.PlusInf? || v <= b.value }

  datatype Histogram = Histogram(
    bounds: seq<Bound>, counts: seq<nat>, count: nat, sum: real, min: Option<real>, max: Option<real>, last: Option<real>)

  function Zeros(n: nat): (s: seq<nat>)
    ensures |s| == n && forall i :: 0 <= i < n ==> s[i] == 0
  {
    if n == 0 then [] else [0] + Zeros(n - 1)
  }

  function Fresh(bounds: seq<Bound>): Histogram {
    Histogram(bounds, Zeros(|bounds|), 0, 0.0, None, None, None)
  }

  function Clamped(v: real): real { MaxReal(0.0, v) }

  /** The first bucket a value fits, if any. */
  function BucketOf(bounds: seq<Bound>, v: real): (k: nat)
    ensures k <= |bounds| && (k < |bounds| ==> Fits(v, bounds[k])) && forall i :: 0 <= i < k ==> !Fits(v, bounds[i])
  {
    if bounds == [] || Fits(v, bounds[0]) then 0 else 1 + BucketOf(bounds[1..], v)
  }

  function Bump(counts: seq<nat>, k: nat): seq<nat> {
    if k < |counts| then counts[k := counts[k] + 1] else counts
  }

  function Observe(h: Histogram, raw: real): Histogram {
    var v := Clamped(raw);
    Histogram(h.bounds, Bump(h.counts, BucketOf(h.bounds, v)), h.count + 1, h.sum + v,
      Some(if h.min.None? then v else MinReal(h.min.value, v)),
      Some(if h.max.None? then v else MaxReal(h.max.value, v)),
      Some(v))
  }

  function Run(bounds: seq<Bound>, values: seq<real>): Histogram {
    if values == [] then Fresh(bounds)
    else Observe(Run(bounds, values[..|values| - 1]), values[|values| - 1])
  }

  /** The number rendered for bucket i: everything counted up to it. */
  function Cumulative(counts: seq<nat>, i: nat): nat
    requires i <= |counts|
  {
    if i == 0 then 0 else Cumulative(counts, i - 1) + counts[i - 1]
  }

  datatype Line = Bucket(le: Bound, cumulative: nat) | Sum(total: real) | Count(number: nat)

  function BucketLines(bounds: seq<Bound>, counts: seq<nat>, n: nat): seq<Line>
    requires n <= |bounds| == |counts|
  {
    if n == 0 then [] else BucketLines(bounds, counts, n - 1) + [Bucket(bounds[n - 1], Cumulative(counts, n))]
  }

  function Rendered(h: Histogram): seq<Line>
    requires |h.bounds| == |h.counts|
  {
    BucketLines(h.bounds, h.counts, |h.bounds|) + [Sum(h.sum), Count(h.count)]
  }

  // ---- what the observations say ----

  /** How many observations, clamped at zero, are within a bound. */
  function AtMost(values: seq<real>, b: Bound): nat {
    if values == [] then 0
    else AtMost(values[..|values| - 1], b) + (if Fits(Clamped(values[|values| - 1]), b) then 1 else 0)
  }

  /** How many fell into one of the first n buckets. */
  function Landed(bounds: seq<Bound>, values: seq<real>, n: nat): nat {
    if values == [] then 0
    else
      Landed(bounds, values[..|values| - 1], n)
        + (if BucketOf(bounds, Clamped(values[|values| - 1])) < n then 1 else 0)
  }

  function Total(values: seq<real>): real {
    if values == [] then 0.0 else Total(values[..|values| - 1]) + Clamped(values[|values| - 1])
  }

  lemma {:induction false} CumulativeBump(counts: seq<nat>, k: nat, n: nat)
    requires n <= |counts|
    ensures |Bump(counts, k)| == |counts|
    ensures Cumulative(Bump(counts, k), n) == Cumulative(counts, n) + (if k < n then 1 else 0)
  {
    if n > 0 {
      CumulativeBump(counts, k, n - 1);
    }
  }

  lemma {:induction false} CumulativeZeros(m: nat, n: nat)
    requires n <= m
    ensures Cumulative(Zeros(m), n) == 0
  {
    if n > 0 {
      CumulativeZeros(m, n - 1);
    }
  }

  /** After any run the counters hold the number, the sum and the last of the clamped observations, and the
      cumulative counts are the observations that landed so far. */
  lemma {:induction false} RunCounts(bounds: seq<Bound>, values: seq<real>, n: nat)
    requires n <= |bounds|
    ensures var h := Run(bounds, values);
      && h.bounds == bounds && |h.counts| == |bounds| && h.count == |values| && h.sum == Total(values)
      && (values != [] ==> h.last == Some(Clamped(values[|values| - 1])))
      && Cumulative(h.counts, n) == Landed(bounds, values, n)
  {
    if values == [] {
      CumulativeZeros(|bounds|, n);
    } else {
      var before := values[..|values| - 1];
      RunCounts(bounds, before, n);
      CumulativeBump(Run(bounds, before).counts, BucketOf(bounds, Clamped(values[|values| - 1])), n);
    }
  }

  /** The extremes are extremes: reached by an observation and passed by none. */
  lemma {:induction false} RunExtremes(bounds: seq<Bound>, values: seq<real>)
    requires values != []
    ensures var h := Run(bounds, values);
      && h.min.Some? && h.max.Some?
      && (forall i :: 0 <= i < |values| ==> h.min.value <= Clamped(values[i]) <= h.max.value)
      && (exists i :: 0 <= i < |values| && Clamped(values[i]) == h.min.value)
      && (exists i :: 0 <= i < |values| && Clamped(values[i]) == h.max.value)
  {
    var n := |values| - 1;
    var before := values[..n];
    var h := Run(bounds, values);
    if n > 0 {
      RunExtremes(bounds, before);
      var g := Run(bounds, before);
      var i :| 0 <= i < n && Clamped(before[i]) == g.min.value;
      var j :| 0 <= j < n && Clamped(before[j]) == g.max.value;
      assert Clamped(values[i]) == g.min.value && Clamped(values[j]) == g.max.value;
      assert forall k :: 0 <= k < n ==> values[k] == before[k];
    }
    assert Clamped(values[n]) == h.min.value || n > 0;
    assert Clamped(values[n]) == h.max.value || n > 0;
  }

  // ---- when the lines are what they claim ----

  /** No usable bound - a negative one catches nothing - is followed by a smaller one. */
  ghost predicate Usable(bounds: seq<Bound>) {
    forall i, j :: 0 <= i < j < |bounds| ==> Dominates(bounds[j], bounds[i])
  }

  predicate Dominates(later: Bound, earlier: Bound) {
    match earlier
    case PlusInf => later.PlusInf?
    case At(b) => b >= 0.0 ==> later.PlusInf? || b <= later.value
  }

  lemma LandedIsFitting(bounds: seq<Bound>, v: real, n: nat)
    requires Usable(bounds) && n < |bounds| && v >= 0.0
    ensures BucketOf(bounds, v) < n + 1 <==> Fits(v, bounds[n])
  {
    var k := BucketOf(bounds, v);
    if k < n {
      assert Dominates(bounds[n], bounds[k]);
    }
  }

  lemma {:induction false} LandedIsAtMost(bounds: seq<Bound>, values: seq<real>, n: nat)
    requires Usable(bounds) && n < |bounds|
    ensures Landed(bounds, values, n + 1) == AtMost(values, bounds[n])
  {
    if values != [] {
      LandedIsAtMost(bounds, values[..|values| - 1], n);
      LandedIsFitting(bounds, Clamped(values[|values| - 1]), n);
    }
  }

  ghost predicate LineIsExact(bounds: seq<Bound>, values: seq<real>, n: nat)
    requires n < |bounds| == |Run(bounds, values).counts|
  {
    Cumulative(Run(bounds, values).counts, n + 1) == AtMost(values, bounds[n])
  }

  ghost predicate LinesAreExact(bounds: seq<Bound>, values: seq<real>) {
    forall n :: 0 <= n < |bounds| == |Run(bounds, values).counts| ==> LineIsExact(bounds, values, n)
  }

  lemma OneObservation(bounds: seq<Bound>, v: real, k: nat, n: nat)
    requires v >= 0.0 && k <= n < |bounds| && Fits(v, bounds[k]) && !Fits(v, bounds[n])
    ensures !LinesAreExact(bounds, [v])
  {
    RunCounts(bounds, [v], n + 1);
    assert [v][..0] == [] && Clamped(v) == v;
    assert Landed(bounds, [v], n + 1) == Landed(bounds, [], n + 1) + (if BucketOf(bounds, v) < n + 1 then 1 else 0);
    assert AtMost([v], bounds[n]) == AtMost([], bounds[n]) + (if Fits(v, bounds[n]) then 1 else 0);
    assert !LineIsExact(bounds, [v], n);
  }

  /** For every run of observations each rendered bucket counts exactly the observations within its bound, if and
      only if the bounds are usable as cumulative buckets; any increasing bounds are. */
  lemma ExposesExactly(bounds: seq<Bound>)
    ensures (forall values :: LinesAreExact(bounds, values)) <==> Usable(bounds)
  {
    if Usable(bounds) {
      forall values ensures LinesAreExact(bounds, values) {
        forall n | 0 <= n < |bounds| == |Run(bounds, values).counts| ensures LineIsExact(bounds, values, n) {
          RunCounts(bounds, values, n + 1);
          LandedIsAtMost(bounds, values, n);
        }
      }
    } else {
      var i, j :| 0 <= i < j < |bounds| && !Dominates(bounds[j], bounds[i]);
      var v := if bounds[i].PlusInf? then MaxReal(bounds[j].value, 0.0) + 1.0 else bounds[i].value;
      OneObservation(bounds, v, i, j);
      assert !LinesAreExact(bounds, [v]);
    }
  }

  lemma {:induction false} AllLand(bounds: seq<Bound>, values: seq<real>, n: nat)
    requires n < |bounds| && bounds[n].PlusInf?
    ensures Landed(bounds, values, n + 1) == |values|
  {
    if values != [] {
      AllLand(bounds, values[..|values| - 1], n);
    }
  }

  lemma {:induction false} LinesAt(bounds: seq<Bound>, counts: seq<nat>, n: nat, i: nat)
    requires i < n <= |bounds| == |counts|
    ensures |BucketLines(bounds, counts, n)| == n
    ensures BucketLines(bounds, counts, n)[i] == Bucket(bounds[i], Cumulative(counts, i + 1))
  {
    if n > 1 && i < n - 1 {
      LinesAt(bounds, counts, n - 1, i);
    } else if n > 1 {
      LinesAt(bounds, counts, n - 1, 0);
    }
  }

  /** The exposition of a run: one line a bound, in order, never decreasing; an infinite bound's line equals the
      count line; and with usable bounds each line counts the observations within its bound. */
  lemma ExpositionOf(bounds: seq<Bound>, values: seq<real>, i: nat)
    requires i < |bounds|
    ensures var h := Run(bounds, values);
      && |h.counts| == |h.bounds|
      && var lines := Rendered(h);
         && |lines| == |bounds| + 2
         && lines[i].Bucket? && lines[i].le == bounds[i]
         && (i + 1 < |bounds| ==> lines[i + 1].Bucket? && lines[i].cumulative <= lines[i + 1].cumulative)
         && (bounds[i].PlusInf? ==> lines[i].cumulative == |values|)
         && (Usable(bounds) ==> lines[i].cumulative == AtMost(values, bounds[i]))
         && lines[|bounds|] == Sum(Total(values)) && lines[|bounds| + 1] == Count(|values|)
  {
    var h := Run(bounds, values);
    RunCounts(bounds, values, i + 1);
    LinesAt(bounds, h.counts, |bounds|, i);
    if i + 1 < |bounds| {
      LinesAt(bounds, h.counts, |bounds|, i + 1);
    }
    if bounds[i].PlusInf? {
      AllLand(bounds, values, i);
    }
    if Usable(bounds) {
      LandedIsAtMost(bounds, values, i);
    }
  }
}

/** The histogram the registry updates in place, and the loop that renders its buckets. */
module Histogram {
  import opened Prelude
  import opened HistogramModel

  class HistogramData {
    const bounds: seq<Bound>
    const bucketCounts: array<nat>
    var count: nat
    var sum: real
    var min: Option<real>
    var max: Option<real>
    var last: Option<real>

    ghost predicate Valid()
      reads this
    {
      bucketCounts.Length == |bounds|
    }

    ghost function View(): HistogramModel.Histogram
      reads this, bucketCounts
    {
      HistogramModel.Histogram(bounds, bucketCounts[..], count, sum, min, max, last)
    }

    constructor (bounds: seq<Bound>)
      ensures Valid() && fresh(bucketCounts) && this.bounds == bounds && View() == Fresh(bounds)
    {
      this.bounds := bounds;
      bucketCounts := new nat[|bounds|](i => 0);
      count, sum, min, max, last := 0, 0.0, None, None, None;
      new;
      assert bucketCounts[..] == Zeros(|bounds|);
    }

    method Observe(raw: real)
      requires Valid()
      modifies this, bucketCounts
      ensures Valid() && View() == HistogramModel.Observe(old(View()), raw)
    {
      var value := if raw > 0.0 then raw else 0.0;
      count := count + 1;
      sum := sum + value;
      last := Some(value);
      min := Some(if min.None? then value else MinReal(min.value, value));
      max := Some(if max.None? then value else MaxReal(max.value, value));
      CountInBucket(value);
    }

    method CountInBucket(value: real)
      requires Valid()
      modifies bucketCounts
      ensures bucketCounts[..] == Bump(old(bucketCounts[..]), BucketOf(bounds, value))
    {
      var i := 0;
      assert bounds[0..] == bounds;
      while i < |bounds|
        invariant 0 <= i <= |bounds|
        invariant BucketOf(bounds, value) == i + BucketOf(bounds[i..], value)
        invariant bucketCounts[..] == old(bucketCounts[..])
      {
        assert bounds[i..][0] == bounds[i] && bounds[i..][1..] == bounds[i + 1..];
        if Fits(value, bounds[i]) {
          bucketCounts[i] := bucketCounts[i] + 1;
          break;
        }
        i := i + 1;
      }
    }
  }

  /** The exporter's loop: a running sum over the buckets, then the sum and the count. */
  method Render(h: HistogramModel.Histogram) returns (lines: seq<Line>)
    requires |h.bounds| == |h.counts|
    ensures lines == Rendered(h)
  {
    lines := [];
    var cumulative: nat := 0;
    var i := 0;
    while i < |h.bounds|
      invariant 0 <= i <= |h.bounds|
      invariant cumulative == Cumulative(h.counts, i) && lines == BucketLines(h.bounds, h.counts, i)
    {
      cumulative := cumulative + h.counts[i];
      lines := lines + [Bucket(h.bounds[i], cumulative)];
      i := i + 1;
    }
    lines := lines + [Sum(h.sum), Count(h.count)];
  }
}
