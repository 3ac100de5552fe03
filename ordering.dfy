/**
 * Python's `list.sort(key=..., reverse=True)` for keys that are pairs of
 * strings: tuples compare lexicographically, strings by code point, and the
 * sort is stable, so elements with equal keys keep their order even when
 * `reverse=True`.
 */
module Ordering {
  import opened Text
  import opened Seqs

  type Key = (string, string)

  /** Python's `a < b` on a pair of strings. */
  predicate KeyLess(a: Key, b: Key) {
    StrLess(a.0, b.0) || (a.0 == b.0 && StrLess(a.1, b.1))
  }

  lemma KeyLessIrreflexive(a: Key)
    ensures !KeyLess(a, a)
  {
    StrLessIrreflexive(a.0);
    StrLessIrreflexive(a.1);
  }

  lemma KeyLessTransitive(a: Key, b: Key, c: Key)
    requires KeyLess(a, b) && KeyLess(b, c)
    ensures KeyLess(a, c)
  {
    if StrLess(a.0, b.0) && StrLess(b.0, c.0) {
      StrLessTransitive(a.0, b.0, c.0);
    } else if a.0 == b.0 && b.0 == c.0 {
      StrLessTransitive(a.1, b.1, c.1);
    }
  }

  /** Keys are totally ordered: `!(a < b)` means `b < a` or `a == b`. */
  lemma KeyNotLess(a: Key, b: Key)
    ensures !KeyLess(a, b) <==> (a == b || KeyLess(b, a))
  {
    if a == b {
      KeyLessIrreflexive(a);
    } else if a.0 != b.0 {
      StrLessTotal(a.0, b.0);
      if StrLess(a.0, b.0) { StrLessAsymmetric(a.0, b.0); }
    } else {
      StrLessTotal(a.1, b.1);
      if StrLess(a.1, b.1) { StrLessAsymmetric(a.1, b.1); }
      StrLessIrreflexive(a.0);
    }
  }

  /** Non-increasing by key. */
  predicate SortedDesc<T>(s: seq<T>, key: T -> Key) {
    forall i, j :: 0 <= i < j < |s| ==> !KeyLess(key(s[i]), key(s[j]))
  }

  /** Puts `x` after every element whose key is at least its own. */
  function Insert<T>(s: seq<T>, x: T, key: T -> Key): (r: seq<T>)
    ensures multiset(r) == multiset(s) + multiset{x}
  {
    if s == [] then [x]
    else if KeyLess(key(s[0]), key(x)) then [x] + s
    else
      assert s == [s[0]] + s[1..];
      [s[0]] + Insert(s[1..], x, key)
  }

  /** `sorted(s, key=key, reverse=True)`: a stable sort into non-increasing
      key order, here written as insertion of each element, in input order,
      behind the elements of equal key already placed. */
  function SortDesc<T>(s: seq<T>, key: T -> Key): (r: seq<T>)
    ensures multiset(r) == multiset(s)
  {
    if s == [] then []
    else
      assert s == s[..|s| - 1] + [s[|s| - 1]];
      Insert(SortDesc(s[..|s| - 1], key), s[|s| - 1], key)
  }

  /** The elements of `s` whose key is `k`, in order. */
  function WithKey<T>(s: seq<T>, key: T -> Key, k: Key): seq<T>
  {
    if s == [] then []
    else (if key(s[0]) == k then [s[0]] else []) + WithKey(s[1..], key, k)
  }

  // ---------------------------------------------------------------------------
  // Sortedness

  lemma InsertMember<T>(s: seq<T>, x: T, key: T -> Key, y: T)
    requires y in Insert(s, x, key)
    ensures y == x || y in s
  {
    assert y in multiset(Insert(s, x, key));
  }

  lemma {:induction false} InsertSorted<T>(s: seq<T>, x: T, key: T -> Key)
    requires SortedDesc(s, key)
    ensures SortedDesc(Insert(s, x, key), key)
  {
    if s == [] {
    } else if KeyLess(key(s[0]), key(x)) {
      var r := [x] + s;
      forall j | 1 <= j < |r| ensures !KeyLess(key(x), key(r[j])) {
        if j > 1 {
          KeyNotLess(key(s[0]), key(s[j - 1]));
          if KeyLess(key(s[j - 1]), key(s[0])) {
            KeyLessTransitive(key(s[j - 1]), key(s[0]), key(x));
          }
        }
        if KeyLess(key(x), key(r[j])) {
          KeyLessTransitive(key(x), key(r[j]), key(x));
          KeyLessIrreflexive(key(x));
        }
      }
    } else {
      var rest := Insert(s[1..], x, key);
      InsertSorted(s[1..], x, key);
      var r := [s[0]] + rest;
      forall j | 1 <= j < |r| ensures !KeyLess(key(s[0]), key(r[j])) {
        InsertMember(s[1..], x, key, r[j]);
        if r[j] != x {
          var k :| 0 <= k < |s[1..]| && s[1..][k] == r[j];
          assert s[k + 1] == r[j];
        }
      }
    }
  }

  /** The sort yields a non-increasing sequence. */
  lemma {:induction false} SortDescSorted<T>(s: seq<T>, key: T -> Key)
    ensures SortedDesc(SortDesc(s, key), key)
  {
    if s != [] {
      SortDescSorted(s[..|s| - 1], key);
      InsertSorted(SortDesc(s[..|s| - 1], key), s[|s| - 1], key);
    }
  }

  // ---------------------------------------------------------------------------
  // Stability

  lemma {:induction false} WithKeyAppend<T>(a: seq<T>, b: seq<T>, key: T -> Key, k: Key)
    ensures WithKey(a + b, key, k) == WithKey(a, key, k) + WithKey(b, key, k)
  {
    if a != [] {
      assert (a + b)[1..] == a[1..] + b;
      WithKeyAppend(a[1..], b, key, k);
    } else {
      assert a + b == b;
    }
  }

  lemma {:induction false} WithKeyNone<T>(s: seq<T>, key: T -> Key, k: Key)
    requires forall i :: 0 <= i < |s| ==> key(s[i]) != k
    ensures WithKey(s, key, k) == []
  {
    if s != [] {
      WithKeyNone(s[1..], key, k);
    }
  }

  lemma WithKeyCons<T>(y: T, r: seq<T>, key: T -> Key, k: Key)
    ensures WithKey([y] + r, key, k) == (if key(y) == k then [y] else []) + WithKey(r, key, k)
  {
    assert ([y] + r)[1..] == r;
  }

  lemma SortedTail<T>(s: seq<T>, key: T -> Key)
    requires s != [] && SortedDesc(s, key)
    ensures SortedDesc(s[1..], key)
  {
    forall i, j | 0 <= i < j < |s[1..]| ensures !KeyLess(key(s[1..][i]), key(s[1..][j])) {
      assert s[1..][i] == s[i + 1] && s[1..][j] == s[j + 1];
    }
  }

  /** An element placed in front of a sorted sequence has a key none of the
      others has. */
  lemma AboveAll<T>(s: seq<T>, x: T, key: T -> Key)
    requires s != [] && SortedDesc(s, key) && KeyLess(key(s[0]), key(x))
    ensures forall i :: 0 <= i < |s| ==> key(s[i]) != key(x)
  {
    forall i | 0 <= i < |s| ensures key(s[i]) != key(x) {
      if i > 0 {
        KeyNotLess(key(s[0]), key(s[i]));
        if KeyLess(key(s[i]), key(s[0])) {
          KeyLessTransitive(key(s[i]), key(s[0]), key(x));
        }
      }
      if key(s[i]) == key(x) {
        KeyLessIrreflexive(key(x));
      }
    }
  }

  lemma {:induction false} InsertWithKey<T>(s: seq<T>, x: T, key: T -> Key, k: Key)
    requires SortedDesc(s, key)
    ensures WithKey(Insert(s, x, key), key, k)
         == WithKey(s, key, k) + (if key(x) == k then [x] else [])
  {
    var tail := if key(x) == k then [x] else [];
    if s == [] {
      assert Insert(s, x, key) == [x];
      WithKeyCons(x, [], key, k);
    } else if KeyLess(key(s[0]), key(x)) {
      assert Insert(s, x, key) == [x] + s;
      WithKeyCons(x, s, key, k);
      if key(x) == k {
        AboveAll(s, x, key);
        WithKeyNone(s, key, k);
      }
    } else {
      var head := if key(s[0]) == k then [s[0]] else [];
      var rest := Insert(s[1..], x, key);
      assert Insert(s, x, key) == [s[0]] + rest;
      SortedTail(s, key);
      InsertWithKey(s[1..], x, key, k);
      WithKeyCons(s[0], rest, key, k);
      WithKeyCons(s[0], s[1..], key, k);
      assert [s[0]] + s[1..] == s;
      Assoc(head, WithKey(s[1..], key, k), tail);
    }
  }

  /** Stability: for every key, the elements with that key come out in the
      order they went in. */
  lemma {:induction false} SortDescStable<T>(s: seq<T>, key: T -> Key, k: Key)
    ensures WithKey(SortDesc(s, key), key, k) == WithKey(s, key, k)
  {
    if s != [] {
      var p := s[..|s| - 1];
      var x := s[|s| - 1];
      var tail := if key(x) == k then [x] else [];
      assert s == p + [x];
      SortDescStable(p, key, k);
      SortDescSorted(p, key);
      InsertWithKey(SortDesc(p, key), x, key, k);
      WithKeyAppend(p, [x], key, k);
      assert [x][1..] == [];
      assert WithKey([x], key, k) == tail + WithKey([], key, k);
      calc {
        WithKey(SortDesc(s, key), key, k);
        WithKey(Insert(SortDesc(p, key), x, key), key, k);
        WithKey(SortDesc(p, key), key, k) + tail;
        WithKey(p, key, k) + WithKey([x], key, k);
        WithKey(s, key, k);
      }
    }
  }

  // ---------------------------------------------------------------------------
  // Sorting what is already sorted

  lemma {:induction false} InsertLast<T>(s: seq<T>, x: T, key: T -> Key)
    requires forall i :: 0 <= i < |s| ==> !KeyLess(key(s[i]), key(x))
    ensures Insert(s, x, key) == s + [x]
  {
    if s != [] {
      InsertLast(s[1..], x, key);
      assert [s[0]] + (s[1..] + [x]) == s + [x];
    }
  }

  /** Sorting a sequence that is already non-increasing changes nothing. */
  lemma {:induction false} SortDescOfSorted<T>(s: seq<T>, key: T -> Key)
    requires SortedDesc(s, key)
    ensures SortDesc(s, key) == s
  {
    if s != [] {
      var p := s[..|s| - 1];
      assert SortedDesc(p, key);
      SortDescOfSorted(p, key);
      InsertLast(p, s[|s| - 1], key);
      assert p + [s[|s| - 1]] == s;
    }
  }

  // ---------------------------------------------------------------------------
  // A projection that tells elements apart stays injective

  lemma {:induction false} InsertKeepsApart<T, U>(s: seq<T>, x: T, key: T -> Key, f: T -> U)
    requires forall i, j :: 0 <= i < j < |s| ==> f(s[i]) != f(s[j])
    requires forall i :: 0 <= i < |s| ==> f(s[i]) != f(x)
    ensures forall i, j :: 0 <= i < j < |Insert(s, x, key)| ==>
              f(Insert(s, x, key)[i]) != f(Insert(s, x, key)[j])
  {
    if s != [] && !KeyLess(key(s[0]), key(x)) {
      var rest := Insert(s[1..], x, key);
      InsertKeepsApart(s[1..], x, key, f);
      forall j | 0 <= j < |rest| ensures f(s[0]) != f(rest[j]) {
        InsertMember(s[1..], x, key, rest[j]);
        if rest[j] != x {
          var k :| 0 <= k < |s[1..]| && s[1..][k] == rest[j];
          assert s[k + 1] == rest[j];
        }
      }
    }
  }

  /** If no two elements agree on `f`, no two sorted elements do. */
  lemma {:induction false} SortDescKeepsApart<T, U>(s: seq<T>, key: T -> Key, f: T -> U)
    requires forall i, j :: 0 <= i < j < |s| ==> f(s[i]) != f(s[j])
    ensures forall i, j :: 0 <= i < j < |SortDesc(s, key)| ==>
              f(SortDesc(s, key)[i]) != f(SortDesc(s, key)[j])
  {
    if s != [] {
      var p := s[..|s| - 1];
      var x := s[|s| - 1];
      SortDescKeepsApart(p, key, f);
      var sp := SortDesc(p, key);
      forall i | 0 <= i < |sp| ensures f(sp[i]) != f(x) {
        assert sp[i] in multiset(p);
        var k :| 0 <= k < |p| && p[k] == sp[i];
        assert s[k] == sp[i];
      }
      InsertKeepsApart(sp, x, key, f);
    }
  }
}
