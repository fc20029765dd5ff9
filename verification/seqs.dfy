/** `Array.prototype.filter` and `reduce`-sums over sequences. */
module Seqs {
  import opened Wrappers

  /** `s.findIndex(p)`, absent instead of -1: the first position whose element satisfies `p`. */
  function FirstWhere<T>(s: seq<T>, p: T -> bool): (k: Option<nat>)
    ensures k.None? <==> forall i :: 0 <= i < |s| ==> !p(s[i])
    ensures k.Some? ==> k.value < |s| && p(s[k.value])
    ensures k.Some? ==> forall i :: 0 <= i < k.value ==> !p(s[i])
  {
    if |s| == 0 then None
    else if p(s[0]) then Some(0)
    else
      var k := FirstWhere(s[1..], p);
      assert forall i :: 1 <= i < |s| ==> s[i] == s[1..][i - 1];
      if k.None? then None else Some(k.value + 1)
  }

  /** `s.filter(p)`: the elements satisfying `p`, in their original order. */
  function Filter<T(!new)>(s: seq<T>, p: T -> bool): (r: seq<T>)
    ensures |r| <= |s|
    ensures forall x :: x in r <==> x in s && p(x)
    ensures forall i :: 0 <= i < |r| ==> p(r[i])
  {
    if |s| == 0 then []
    else if p(s[0]) then [s[0]] + Filter(s[1..], p)
    else Filter(s[1..], p)
  }

  /** Filtering distributes over concatenation, so order is kept across the cut. */
  lemma {:induction false} FilterAppend<T(!new)>(a: seq<T>, b: seq<T>, p: T -> bool)
    ensures Filter(a + b, p) == Filter(a, p) + Filter(b, p)
    decreases |a|
  {
    if |a| > 0 {
      assert (a + b)[1..] == a[1..] + b;
      FilterAppend(a[1..], b, p);
    } else {
      assert a + b == b;
    }
  }

  /** Every element that passes is kept: nothing satisfying `p` is dropped. */
  lemma {:induction false} FilterAll<T(!new)>(s: seq<T>, p: T -> bool)
    requires forall i :: 0 <= i < |s| ==> p(s[i])
    ensures Filter(s, p) == s
    decreases |s|
  {
    if |s| > 0 {
      FilterAll(s[1..], p);
    }
  }

  /** A weaker test keeps at least as much: when everything passing `p` passes `q`, the
      `q`-filter is no shorter and, for non-negative terms, sums to no less. */
  lemma {:induction false} FilterWeaker<T(!new)>(s: seq<T>, p: T -> bool, q: T -> bool, f: T -> int)
    requires forall x :: p(x) ==> q(x)
    requires forall i :: 0 <= i < |s| ==> f(s[i]) >= 0
    ensures |Filter(s, p)| <= |Filter(s, q)|
    ensures SumBy(Filter(s, p), f) <= SumBy(Filter(s, q), f)
    decreases |s|
  {
    if |s| > 0 {
      FilterWeaker(s[1..], p, q, f);
      var a := Filter(s[1..], p);
      var b := Filter(s[1..], q);
      assert ([s[0]] + a)[1..] == a;
      assert ([s[0]] + b)[1..] == b;
      if !p(s[0]) && q(s[0]) {
        assert SumBy([s[0]] + b, f) == f(s[0]) + SumBy(b, f);
      }
    }
  }

  /** `s.map(f)`. */
  function MapBy<T, U>(s: seq<T>, f: T -> U): (r: seq<U>)
    ensures |r| == |s|
    ensures forall i :: 0 <= i < |s| ==> r[i] == f(s[i])
  {
    seq(|s|, i requires 0 <= i < |s| => f(s[i]))
  }

  /** Mapping a sequence with a new head maps the head and then the rest. */
  lemma MapCons<T, U>(x: T, s: seq<T>, f: T -> U)
    ensures MapBy([x] + s, f) == [f(x)] + MapBy(s, f)
  {
    var l := MapBy([x] + s, f);
    var r := [f(x)] + MapBy(s, f);
    forall i | 0 <= i < |l|
      ensures l[i] == r[i]
    {
      if i > 0 {
        assert ([x] + s)[i] == s[i - 1];
      }
    }
  }

  /** `s.reduce((acc, x) => acc + f(x), 0)`. */
  function SumBy<T>(s: seq<T>, f: T -> int): int
  {
    if |s| == 0 then 0 else f(s[0]) + SumBy(s[1..], f)
  }

  /** Sums split over concatenation. */
  lemma {:induction false} SumAppend<T>(a: seq<T>, b: seq<T>, f: T -> int)
    ensures SumBy(a + b, f) == SumBy(a, f) + SumBy(b, f)
    decreases |a|
  {
    if |a| > 0 {
      assert (a + b)[1..] == a[1..] + b;
      SumAppend(a[1..], b, f);
    } else {
      assert a + b == b;
    }
  }

  /** A sum of non-negative terms is non-negative. */
  lemma {:induction false} SumNonNegative<T>(s: seq<T>, f: T -> int)
    requires forall i :: 0 <= i < |s| ==> f(s[i]) >= 0
    ensures SumBy(s, f) >= 0
    decreases |s|
  {
    if |s| > 0 {
      SumNonNegative(s[1..], f);
    }
  }

  /** `s` is ordered by `key`, largest first (`.sort({ key: -1 })`). */
  predicate Descending<T>(s: seq<T>, key: T -> int)
  {
    forall i, j :: 0 <= i < j < |s| ==> key(s[i]) >= key(s[j])
  }

  /** Places `x` in front of the first element whose key does not exceed its own. */
  function InsertDesc<T(!new)>(x: T, s: seq<T>, key: T -> int): (r: seq<T>)
    requires Descending(s, key)
    ensures Descending(r, key)
    ensures multiset(r) == multiset(s) + multiset{x}
  {
    if |s| == 0 then [x]
    else if key(x) >= key(s[0]) then [x] + s
    else
      var rest := InsertDesc(x, s[1..], key);
      InsertDescStep(x, s, key, rest);
      [s[0]] + rest
  }

  /** The recursive case of `InsertDesc`: the head stays in front of the insertion into the
      tail. */
  lemma InsertDescStep<T>(x: T, s: seq<T>, key: T -> int, rest: seq<T>)
    requires |s| > 0 && Descending(s, key) && key(x) < key(s[0])
    requires Descending(rest, key) && multiset(rest) == multiset(s[1..]) + multiset{x}
    ensures Descending([s[0]] + rest, key)
    ensures multiset([s[0]] + rest) == multiset(s) + multiset{x}
  {
    assert s == [s[0]] + s[1..];
    assert forall k :: 0 <= k < |rest| ==> key(rest[k]) <= key(s[0]) by {
      forall k | 0 <= k < |rest| ensures key(rest[k]) <= key(s[0]) {
        assert rest[k] in multiset(rest);
        if rest[k] != x {
          assert rest[k] in multiset(s[1..]);
          var m :| 0 <= m < |s[1..]| && s[1..][m] == rest[k];
          assert s[m + 1] == rest[k];
        }
      }
    }
    var r := [s[0]] + rest;
    forall i, j | 0 <= i < j < |r| ensures key(r[i]) >= key(r[j]) {
      assert r[j] == rest[j - 1];
      if i > 0 { assert r[i] == rest[i - 1]; }
    }
  }

  /** The same elements, largest key first. */
  function SortDesc<T(!new)>(s: seq<T>, key: T -> int): (r: seq<T>)
    ensures Descending(r, key)
    ensures multiset(r) == multiset(s)
    ensures |r| == |s|
  {
    if |s| == 0 then []
    else
      assert s == [s[0]] + s[1..];
      InsertDesc(s[0], SortDesc(s[1..], key), key)
  }
}
