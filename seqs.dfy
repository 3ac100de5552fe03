/**
 * Generic facts about sequences: the first index of an element and the
 * distinct elements of a sequence in the order of their first occurrence
 * (the key order of a Python dict filled from that sequence).
 */
module Seqs {

  /** `s.index(x)`: the first position of `x` in `s`. */
  function IndexOf<T(==)>(s: seq<T>, x: T): (k: nat)
    requires x in s
    ensures k < |s| && s[k] == x
    ensures forall j :: 0 <= j < k ==> s[j] != x
  {
    if s[0] == x then 0 else 1 + IndexOf(s[1..], x)
  }

  predicate AllDistinct<T(==)>(s: seq<T>) {
    forall i, j :: 0 <= i < j < |s| ==> s[i] != s[j]
  }

  /** The distinct elements of `s`, each at the place where it first occurs. */
  function Distinct<T(==)>(s: seq<T>): (r: seq<T>)
    ensures forall i :: 0 <= i < |r| ==> r[i] in s
    ensures forall i :: 0 <= i < |s| ==> s[i] in r
    ensures AllDistinct(r)
    ensures |r| <= |s|
  {
    if s == [] then []
    else
      var p := Distinct(s[..|s| - 1]);
      if s[|s| - 1] in p then p else p + [s[|s| - 1]]
  }

  lemma IndexOfPrefix<T>(p: seq<T>, y: T, x: T)
    requires x in p
    ensures IndexOf(p + [y], x) == IndexOf(p, x)
  {
    var k := IndexOf(p, x);
    var k' := IndexOf(p + [y], x);
    assert (p + [y])[k] == x;
  }

  /** `Distinct` keeps the order of first occurrence. */
  lemma {:induction false} DistinctFirstOrder<T>(s: seq<T>)
    ensures forall i, j :: 0 <= i < j < |Distinct(s)| ==>
              IndexOf(s, Distinct(s)[i]) < IndexOf(s, Distinct(s)[j])
  {
    if s != [] {
      var p := s[..|s| - 1];
      var x := s[|s| - 1];
      assert s == p + [x];
      DistinctFirstOrder(p);
      var dp := Distinct(p);
      forall i, j | 0 <= i < j < |dp| ensures IndexOf(s, dp[i]) < IndexOf(s, dp[j]) {
        IndexOfPrefix(p, x, dp[i]);
        IndexOfPrefix(p, x, dp[j]);
      }
      if x !in dp {
        assert x !in p;
        assert IndexOf(s, x) == |p|;
        forall i | 0 <= i < |dp| ensures IndexOf(s, dp[i]) < |p| {
          IndexOfPrefix(p, x, dp[i]);
        }
      }
    }
  }

  /** A sequence without repetitions is its own `Distinct`. */
  lemma {:induction false} DistinctOfDistinct<T>(s: seq<T>)
    requires AllDistinct(s)
    ensures Distinct(s) == s
  {
    if s != [] {
      var p := s[..|s| - 1];
      assert AllDistinct(p);
      DistinctOfDistinct(p);
      assert s[|s| - 1] !in p;
      assert p + [s[|s| - 1]] == s;
    }
  }

  /** `s[::-1]` */
  function Reverse<T>(s: seq<T>): (r: seq<T>)
    ensures |r| == |s|
    ensures forall i :: 0 <= i < |s| ==> r[i] == s[|s| - 1 - i]
  {
    seq(|s|, i requires 0 <= i < |s| => s[|s| - 1 - i])
  }

  lemma Assoc<T>(a: seq<T>, b: seq<T>, c: seq<T>)
    ensures a + b + c == a + (b + c)
  {
  }

  /** A non-empty sequence followed by `t` is its head followed by the rest. */
  lemma ConsTail<T>(p: seq<T>, t: seq<T>)
    requires p != []
    ensures p + t == [p[0]] + (p[1..] + t)
  {
  }
}
