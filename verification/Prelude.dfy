/** Shared vocabulary: optional values, duplicate-free sequences and Python's
    insertion-ordered dictionary. */
module Prelude {

  datatype Option<+T> = None | Some(value: T) {
    function GetOr(default: T): T {
      if None? then default else value
    }
  }

  function MinReal(a: real, b: real): real { if a <= b then a else b }

  function MaxReal(a: real, b: real): real { if a >= b then a else b }

  function AbsReal(a: real): real { if a >= 0.0 then a else -a }

  /** Python's `a or b` on optional strings: None and the empty string are both falsy. */
  predicate Truthy(s: Option<string>) {
    s.Some? && s.value != ""
  }

  function OrElse(s: Option<string>, otherwise: Option<string>): Option<string> {
    if Truthy(s) then s else otherwise
  }

  ghost predicate NoDup<T>(s: seq<T>) {
    forall i, j :: 0 <= i < j < |s| ==> s[i] != s[j]
  }

  /** A sequence never holds fewer items than any set of its members. */
  lemma {:induction false} DistinctMembersFit<T>(members: set<T>, s: seq<T>)
    requires forall x :: x in members ==> x in s
    ensures |members| <= |s|
  {
    if s == [] {
      assert members == {};
    } else {
      var rest := members - {s[0]};
      forall x | x in rest ensures x in s[1..] {
        var i :| 0 <= i < |s| && s[i] == x;
        assert s[1..][i - 1] == x;
      }
      DistinctMembersFit(rest, s[1..]);
      assert members <= rest + {s[0]};
      assert |members| <= |rest + {s[0]}| <= |rest| + 1;
    }
  }

  /** The elements of s other than x, in order. */
  function Without<T(==,!new)>(s: seq<T>, x: T): (r: seq<T>)
    ensures forall y :: y in r <==> y in s && y != x
    ensures NoDup(s) ==> NoDup(r)
    ensures x !in s ==> r == s
  {
    if s == [] then []
    else if s[0] == x then Without(s[1..], x)
    else
      var rest := Without(s[1..], x);
      assert forall y :: y in s <==> y == s[0] || y in s[1..];
      assert NoDup(s) ==> NoDup(s[1..]) && s[0] !in rest;
      [s[0]] + rest
  }

  lemma {:induction false} WithoutSplit<T(!new)>(a: seq<T>, b: seq<T>, x: T)
    ensures Without(a + b, x) == Without(a, x) + Without(b, x)
  {
    if a == [] {
      assert a + b == b;
    } else {
      assert (a + b)[1..] == a[1..] + b;
      WithoutSplit(a[1..], b, x);
    }
  }

  /** Python's dict: the keys in insertion order beside the stored values. */
  datatype Dict<K(==,!new), V> = Dict(order: seq<K>, items: map<K, V>) {

    ghost predicate Valid() {
      NoDup(order) && forall k :: k in order <==> k in items
    }

    /** `d[k] = v`: a known key keeps its place, a new one goes last. */
    function Put(k: K, v: V): (d: Dict<K, V>)
      ensures d.items == items[k := v]
      ensures Valid() ==> d.Valid()
    {
      Dict(if k in items then order else order + [k], items[k := v])
    }

    /** `d.pop(k, None)` */
    function Drop(k: K): (d: Dict<K, V>)
      ensures d.items == items - {k}
      ensures Valid() ==> d.Valid()
    {
      Dict(Without(order, k), items - {k})
    }

    function Get(k: K): Option<V> {
      if k in items then Some(items[k]) else None
    }
  }

  function EmptyDict<K(!new), V>(): (d: Dict<K, V>)
    ensures d.Valid()
  {
    Dict([], map[])
  }
}
