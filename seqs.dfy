/** Sequence helpers shared by the components: JavaScript's `filter` and a
    `reduce` that adds up one numeric field. */
module Seqs {

  datatype Option<T> = None | Some(value: T)

  /** `s.find(p)`: the first element satisfying `p`, or nothing. */
  function Find<T>(s: seq<T>, p: T -> bool): (r: Option<T>)
    ensures r.None? <==> forall i :: 0 <= i < |s| ==> !p(s[i])
    ensures r.Some? ==> exists i :: 0 <= i < |s| && s[i] == r.value && p(r.value) &&
                                    forall k :: 0 <= k < i ==> !p(s[k])
  {
    if s == [] then None
    else if p(s[0]) then Some(s[0])
    else
      var r := Find(s[1..], p);
      assert forall i :: 1 <= i < |s| ==> s[i] == s[1..][i - 1];
      r
  }

  /** `s.filter(p)`: the elements of `s` that satisfy `p`, in their order. */
  function Filter<T>(s: seq<T>, p: T -> bool): (r: seq<T>)
    ensures |r| <= |s|
    ensures forall i :: 0 <= i < |r| ==> r[i] in s && p(r[i])
    ensures forall i :: 0 <= i < |s| && p(s[i]) ==> s[i] in r
  {
    if s == [] then [] else (if p(s[0]) then [s[0]] else []) + Filter(s[1..], p)
  }

  /** `s.reduce((sum, x) => sum + f(x), 0)`. */
  function Sum<T>(s: seq<T>, f: T -> real): real
  {
    if s == [] then 0.0 else f(s[0]) + Sum(s[1..], f)
  }

  /** Filtering keeps the relative order: it distributes over concatenation. */
  lemma {:induction false} FilterConcat<T>(a: seq<T>, b: seq<T>, p: T -> bool)
    ensures Filter(a + b, p) == Filter(a, p) + Filter(b, p)
  {
    if a == [] {
      assert a + b == b;
    } else {
      assert (a + b)[1..] == a[1..] + b;
      FilterConcat(a[1..], b, p);
    }
  }

  /** Filtering with a predicate that every element satisfies changes nothing. */
  lemma {:induction false} FilterKeepsAll<T>(s: seq<T>, p: T -> bool)
    requires forall i :: 0 <= i < |s| ==> p(s[i])
    ensures Filter(s, p) == s
  {
    if s != [] {
      FilterKeepsAll(s[1..], p);
    }
  }

  /** The sum over a sequence is split between two disjoint filters when every
      element outside both contributes nothing. */
  lemma {:induction false} SumPartition<T>(s: seq<T>, p: T -> bool, q: T -> bool, f: T -> real)
    requires forall i :: 0 <= i < |s| ==> !(p(s[i]) && q(s[i]))
    requires forall i :: 0 <= i < |s| ==> p(s[i]) || q(s[i]) || f(s[i]) == 0.0
    ensures Sum(Filter(s, p), f) + Sum(Filter(s, q), f) == Sum(s, f)
  {
    if s != [] {
      SumPartition(s[1..], p, q, f);
      var x := s[0];
      var fp := (if p(x) then [x] else []) + Filter(s[1..], p);
      var fq := (if q(x) then [x] else []) + Filter(s[1..], q);
      assert Filter(s, p) == fp;
      assert Filter(s, q) == fq;
      SumConcatHead(x, p(x), Filter(s[1..], p), f);
      SumConcatHead(x, q(x), Filter(s[1..], q), f);
    }
  }

  lemma SumConcatHead<T>(x: T, keep: bool, rest: seq<T>, f: T -> real)
    ensures Sum((if keep then [x] else []) + rest, f) == (if keep then f(x) else 0.0) + Sum(rest, f)
  {
    if keep {
      assert ([x] + rest)[1..] == rest;
    } else {
      assert [] + rest == rest;
    }
  }

  function Value(x: real): real { x }

  /** Two filters that never both hold pick at most the whole sequence between them. */
  lemma {:induction false} DisjointFiltersFit<T>(s: seq<T>, p: T -> bool, q: T -> bool)
    requires forall i :: 0 <= i < |s| ==> !(p(s[i]) && q(s[i]))
    ensures |Filter(s, p)| + |Filter(s, q)| <= |s|
  {
    if s != [] {
      DisjointFiltersFit(s[1..], p, q);
    }
  }

  /** Sum of a sequence of reals. */
  function Total(xs: seq<real>): real
  {
    Sum(xs, Value)
  }

  /** Replacing one entry changes the total by the difference. */
  lemma {:induction false} TotalUpdate(xs: seq<real>, j: nat, v: real)
    requires j < |xs|
    ensures Total(xs[j := v]) == Total(xs) - xs[j] + v
  {
    if j == 0 {
      assert xs[j := v][1..] == xs[1..];
    } else {
      assert xs[j := v][1..] == xs[1..][j - 1 := v];
      TotalUpdate(xs[1..], j - 1, v);
    }
  }

  /** A total of non-positive reals is zero only when every entry is zero. */
  lemma {:induction false} ZeroTotalOfNonPositive(xs: seq<real>)
    requires forall j :: 0 <= j < |xs| ==> xs[j] <= 0.0
    ensures Total(xs) <= 0.0
    ensures Total(xs) == 0.0 ==> forall j :: 0 <= j < |xs| ==> xs[j] == 0.0
  {
    if xs != [] {
      ZeroTotalOfNonPositive(xs[1..]);
      assert forall j :: 1 <= j < |xs| ==> xs[j] == xs[1..][j - 1];
    }
  }

  /** No two entries share a key. */
  ghost predicate DistinctKeys<T>(s: seq<T>, key: T -> string)
  {
    forall a, b :: 0 <= a < b < |s| ==> key(s[a]) != key(s[b])
  }

  /** Dropping the head keeps the keys distinct, and no later key is the head's. */
  lemma DistinctTail<T>(s: seq<T>, key: T -> string)
    requires s != [] && DistinctKeys(s, key)
    ensures DistinctKeys(s[1..], key)
    ensures forall k :: 0 <= k < |s[1..]| ==> key(s[1..][k]) != key(s[0])
  {
    forall a, b | 0 <= a < b < |s[1..]| ensures key(s[1..][a]) != key(s[1..][b]) {
      assert s[1..][a] == s[a + 1] && s[1..][b] == s[b + 1];
    }
    forall k | 0 <= k < |s[1..]| ensures key(s[1..][k]) != key(s[0]) {
      assert s[1..][k] == s[k + 1];
    }
  }

  /** Filtering keeps the keys distinct. */
  lemma {:induction false} DistinctAfterFilter<T>(s: seq<T>, key: T -> string, p: T -> bool)
    ensures DistinctKeys(s, key) ==> DistinctKeys(Filter(s, p), key)
  {
    if s != [] && DistinctKeys(s, key) {
      DistinctTail(s, key);
      DistinctAfterFilter(s[1..], key, p);
      var rest := Filter(s[1..], p);
      forall b | 0 <= b < |rest|
        ensures key(rest[b]) != key(s[0])
      {
        var k :| 0 <= k < |s[1..]| && s[1..][k] == rest[b];
      }
      if p(s[0]) {
        var f := [s[0]] + rest;
        forall a, b | 0 <= a < b < |f|
          ensures key(f[a]) != key(f[b])
        {
          assert f[b] == rest[b - 1];
          if a > 0 { assert f[a] == rest[a - 1]; }
        }
      } else {
        assert Filter(s, p) == [] + rest == rest;
      }
    }
  }
}
