/**
 * Grouping the history by day (`render_from_history`, step 1): each record
 * goes to the bucket of its day key, and buckets are filled in history order.
 * `by_day` is a defaultdict, so its keys come in order of first use.
 */
module Grouping {
  import opened Text
  import opened Records
  import opened Seqs
  import opened Ordering

  /** `re.match(r"^\d{4}-\d{2}-\d{2}$", s)` (digits read as ASCII digits). */
  predicate IsIsoDay(s: string) {
    && |s| == 10
    && IsDigit(s[0]) && IsDigit(s[1]) && IsDigit(s[2]) && IsDigit(s[3])
    && s[4] == '-'
    && IsDigit(s[5]) && IsDigit(s[6])
    && s[7] == '-'
    && IsDigit(s[8]) && IsDigit(s[9])
  }

  /** The bucket of a record: its stripped pub_date if that is an ISO day,
      else the first ten characters of its stripped added_on if those are,
      else `today` (the clock's date). */
  function DayKey(r: Record, today: string): (d: string)
    ensures IsIsoDay(d) || d == today
    ensures IsIsoDay(today) ==> IsIsoDay(d)
    ensures IsIsoDay(Strip(GetOr(r.pubDate, ""))) ==> d == Strip(GetOr(r.pubDate, ""))
    ensures !IsIsoDay(Strip(GetOr(r.pubDate, ""))) && IsIsoDay(Take(Strip(GetOr(r.addedOn, "")), 10)) ==>
              d == Take(Strip(GetOr(r.addedOn, "")), 10)
    ensures !IsIsoDay(Strip(GetOr(r.pubDate, ""))) && !IsIsoDay(Take(Strip(GetOr(r.addedOn, "")), 10)) ==>
              d == today
  {
    var d := Strip(GetOr(r.pubDate, ""));
    if IsIsoDay(d) then d
    else
      var d' := Take(Strip(GetOr(r.addedOn, "")), 10);
      if IsIsoDay(d') then d' else today
  }

  /** The key function of one run, `today` fixed. */
  function DayKeyOf(today: string): Record -> string {
    r => DayKey(r, today)
  }

  // ---------------------------------------------------------------------------
  // Grouping by a key, for any key function

  /** The keys of the records, in history order, repeats included. */
  function Keys<T>(h: seq<T>, key: T -> string): (r: seq<string>)
    ensures |r| == |h|
    ensures forall i :: 0 <= i < |h| ==> r[i] == key(h[i])
  {
    seq(|h|, i requires 0 <= i < |h| => key(h[i]))
  }

  /** The keys of `by_day`. */
  function KeySet<T>(h: seq<T>, key: T -> string): set<string> {
    set i | 0 <= i < |h| :: key(h[i])
  }

  /** `by_day[d]`: the records whose key is `d`, in history order. */
  function Bucket<T>(h: seq<T>, key: T -> string, d: string): seq<T> {
    if h == [] then []
    else
      var n := |h| - 1;
      Bucket(h[..n], key, d) + (if key(h[n]) == d then [h[n]] else [])
  }

  /** The key order of `by_day`: each key where it is first used. */
  function KeyOrder<T>(h: seq<T>, key: T -> string): seq<string> {
    Distinct(Keys(h, key))
  }

  /** `by_day` as a map. */
  function Buckets<T>(h: seq<T>, key: T -> string): map<string, seq<T>> {
    map d | d in KeySet(h, key) :: Bucket(h, key, d)
  }

  /** The grouping loop: `by_day[d].append(a)` for each record in turn; the
      defaultdict's key order is returned beside its contents. */
  method GroupByDay(history: seq<Record>, today: string) returns (days: seq<string>, byDay: map<string, seq<Record>>)
    ensures days == KeyOrder(history, DayKeyOf(today))
    ensures byDay == Buckets(history, DayKeyOf(today))
  {
    ghost var key := DayKeyOf(today);
    days := [];
    byDay := map[];
    for i := 0 to |history|
      invariant days == KeyOrder(history[..i], key)
      invariant byDay == Buckets(history[..i], key)
    {
      var a := history[i];
      var d := DayKey(a, today);
      assert d == key(a);
      GroupStep(history, i, key);
      // `by_day[d].append(a)`, the defaultdict creating the list on first use
      var bucket := if d in byDay then byDay[d] else [];
      if d !in byDay {
        days := days + [d];
      }
      byDay := byDay[d := bucket + [a]];
    }
    assert history[..|history|] == history;
  }

  lemma GroupStep<T>(h: seq<T>, i: nat, key: T -> string)
    requires i < |h|
    ensures KeySet(h[..i + 1], key) == KeySet(h[..i], key) + {key(h[i])}
    ensures KeyOrder(h[..i + 1], key)
         == if key(h[i]) in KeySet(h[..i], key) then KeyOrder(h[..i], key)
            else KeyOrder(h[..i], key) + [key(h[i])]
    ensures Buckets(h[..i + 1], key)
         == Buckets(h[..i], key)[key(h[i]) :=
              (if key(h[i]) in KeySet(h[..i], key) then Bucket(h[..i], key, key(h[i])) else []) + [h[i]]]
  {
    var p := h[..i];
    var q := h[..i + 1];
    assert q[..i] == p;
    KeySetSnoc(p, q, key);
    KeyOrderSnoc(p, q, key);
    BucketsSnoc(p, q, key);
  }

  lemma BucketSnoc<T>(p: seq<T>, q: seq<T>, key: T -> string, e: string)
    requires |q| == |p| + 1 && q[..|p|] == p
    ensures Bucket(q, key, e) == Bucket(p, key, e) + (if key(q[|p|]) == e then [q[|p|]] else [])
  {
  }

  lemma BucketsSnoc<T>(p: seq<T>, q: seq<T>, key: T -> string)
    requires |q| == |p| + 1 && q[..|p|] == p
    ensures Buckets(q, key)
         == Buckets(p, key)[key(q[|p|]) :=
              (if key(q[|p|]) in KeySet(p, key) then Bucket(p, key, key(q[|p|])) else []) + [q[|p|]]]
  {
    var x := q[|p|];
    var d := key(x);
    var m := Buckets(p, key)[d := (if d in KeySet(p, key) then Bucket(p, key, d) else []) + [x]];
    var b := Buckets(q, key);
    KeySetSnoc(p, q, key);
    assert m.Keys == b.Keys;
    forall e | e in b.Keys ensures b[e] == m[e] {
      assert b[e] == Bucket(q, key, e);
      BucketSnoc(p, q, key, e);
      if e != d {
        assert e in KeySet(p, key);
        assert m[e] == Bucket(p, key, e);
        assert Bucket(p, key, e) + [] == Bucket(p, key, e);
      } else if d !in KeySet(p, key) {
        BucketAbsent(p, key, d);
      }
    }
    assert b == m;
  }

  lemma KeySetSnoc<T>(p: seq<T>, q: seq<T>, key: T -> string)
    requires |q| == |p| + 1 && q[..|p|] == p
    ensures KeySet(q, key) == KeySet(p, key) + {key(q[|p|])}
  {
    forall e | e in KeySet(q, key) ensures e in KeySet(p, key) + {key(q[|p|])} {
      var i :| 0 <= i < |q| && key(q[i]) == e;
      if i < |p| {
        assert q[i] == p[i];
      }
    }
    forall e | e in KeySet(p, key) ensures e in KeySet(q, key) {
      var i :| 0 <= i < |p| && key(p[i]) == e;
      assert q[i] == p[i];
    }
  }

  lemma KeyOrderSnoc<T>(p: seq<T>, q: seq<T>, key: T -> string)
    requires |q| == |p| + 1 && q[..|p|] == p
    ensures KeyOrder(q, key)
         == if key(q[|p|]) in KeySet(p, key) then KeyOrder(p, key)
            else KeyOrder(p, key) + [key(q[|p|])]
  {
    var ks := Keys(q, key);
    assert ks[..|p|] == Keys(p, key);
    var d := key(q[|p|]);
    DistinctMembers(Keys(p, key));
    if d in KeySet(p, key) {
      var i :| 0 <= i < |p| && key(p[i]) == d;
      assert Keys(p, key)[i] == d;
    }
  }

  /** A value occurs in `Distinct(s)` exactly when it occurs in `s`. */
  lemma DistinctMembers(s: seq<string>)
    ensures forall x :: x in Distinct(s) <==> x in s
  {
  }

  lemma {:induction false} BucketAbsent<T>(h: seq<T>, key: T -> string, d: string)
    requires d !in KeySet(h, key)
    ensures Bucket(h, key, d) == []
  {
    if h != [] {
      var n := |h| - 1;
      assert h[..n + 1] == h;
      KeySetSnoc(h[..n], h, key);
      BucketAbsent(h[..n], key, d);
    }
  }

  // ---------------------------------------------------------------------------
  // What a bucket holds

  /** Every record in the bucket of `d` has key `d`. */
  lemma {:induction false} BucketKeys<T>(h: seq<T>, key: T -> string, d: string)
    ensures forall x :: x in Bucket(h, key, d) ==> key(x) == d
  {
    if h != [] {
      BucketKeys(h[..|h| - 1], key, d);
    }
  }

  /** The bucket of `d` holds each record of key `d` as often as the history does. */
  lemma {:induction false} BucketCounts<T>(h: seq<T>, key: T -> string, d: string, x: T)
    requires key(x) == d
    ensures multiset(Bucket(h, key, d))[x] == multiset(h)[x]
  {
    if h != [] {
      var n := |h| - 1;
      assert h == h[..n] + [h[n]];
      BucketCounts(h[..n], key, d, x);
    }
  }

  /** A day is a key of `by_day` exactly when its bucket is not empty. */
  lemma BucketNonEmpty<T>(h: seq<T>, key: T -> string, d: string)
    ensures d in KeySet(h, key) <==> Bucket(h, key, d) != []
  {
    if d in KeySet(h, key) {
      var i :| 0 <= i < |h| && key(h[i]) == d;
      BucketCounts(h, key, d, h[i]);
      assert h[i] in multiset(h);
    } else {
      BucketAbsent(h, key, d);
    }
  }

  /** Buckets keep history order: the bucket of a concatenation is the
      bucket of the first part followed by the bucket of the second. */
  lemma {:induction false} BucketConcat<T>(a: seq<T>, b: seq<T>, key: T -> string, d: string)
    ensures Bucket(a + b, key, d) == Bucket(a, key, d) + Bucket(b, key, d)
    decreases |b|
  {
    if b == [] {
      assert a + b == a;
    } else {
      var n := |b| - 1;
      assert (a + b)[..|a| + n] == a + b[..n];
      assert (a + b)[|a| + n] == b[n];
      BucketConcat(a, b[..n], key, d);
    }
  }

  // ---------------------------------------------------------------------------
  // The buckets taken together

  /** The buckets of `keys`, one after the other (`flat.extend(by_day[d])`). */
  function Concat<T>(h: seq<T>, key: T -> string, keys: seq<string>): seq<T> {
    if keys == [] then []
    else
      var n := |keys| - 1;
      Concat(h, key, keys[..n]) + Bucket(h, key, keys[n])
  }

  lemma {:induction false} ConcatOfEmpty<T>(key: T -> string, keys: seq<string>)
    ensures Concat([], key, keys) == []
  {
    if keys != [] {
      ConcatOfEmpty(key, keys[..|keys| - 1]);
    }
  }

  lemma {:induction false} ConcatSnoc<T>(h: seq<T>, x: T, key: T -> string, keys: seq<string>)
    requires AllDistinct(keys)
    ensures multiset(Concat(h + [x], key, keys))
         == multiset(Concat(h, key, keys)) + (if key(x) in keys then multiset{x} else multiset{})
  {
    if keys != [] {
      var n := |keys| - 1;
      var k := keys[n];
      var init := keys[..n];
      var hx := h + [x];
      var tail := if key(x) == k then [x] else [];
      var before := if key(x) in init then multiset{x} else multiset{};
      assert (if key(x) in keys then multiset{x} else multiset{}) == before + multiset(tail) by {
        assert keys == init + [k];
        assert k !in init;
      }
      assert AllDistinct(init);
      ConcatSnoc(h, x, key, init);
      assert hx[..|h|] == h;
      BucketSnoc(h, hx, key, k);
      SnocCount(Concat(h, key, init), Concat(hx, key, init), Bucket(h, key, k), tail, before);
    }
  }

  lemma SnocCount<T>(a: seq<T>, a': seq<T>, b: seq<T>, tail: seq<T>, more: multiset<T>)
    requires multiset(a') == multiset(a) + more
    ensures multiset(a' + (b + tail)) == multiset(a + b) + (more + multiset(tail))
  {
  }

  /** Concatenating the buckets of distinct keys that cover every record's
      key loses and duplicates nothing: the result is a permutation of the
      history. */
  lemma {:induction false} ConcatPermutation<T>(h: seq<T>, key: T -> string, keys: seq<string>)
    requires AllDistinct(keys)
    requires forall i :: 0 <= i < |h| ==> key(h[i]) in keys
    ensures multiset(Concat(h, key, keys)) == multiset(h)
  {
    if h == [] {
      ConcatOfEmpty(key, keys);
    } else {
      var n := |h| - 1;
      assert h == h[..n] + [h[n]];
      ConcatPermutation(h[..n], key, keys);
      ConcatSnoc(h[..n], h[n], key, keys);
    }
  }

  // ---------------------------------------------------------------------------
  // The keys in order

  function DayRank(d: string): Key {
    (d, "")
  }

  /** `sorted(by_day.keys(), reverse=True)` */
  function KeysDesc<T>(h: seq<T>, key: T -> string): seq<string> {
    SortDesc(KeyOrder(h, key), DayRank)
  }

  /** The keys in descending order are the keys of `by_day`, each once, and
      strictly decreasing. */
  lemma KeysDescFacts<T>(h: seq<T>, key: T -> string)
    ensures AllDistinct(KeysDesc(h, key))
    ensures forall d :: d in KeysDesc(h, key) <==> d in KeySet(h, key)
    ensures forall i, j :: 0 <= i < j < |KeysDesc(h, key)| ==>
              StrLess(KeysDesc(h, key)[j], KeysDesc(h, key)[i])
  {
    var order := KeyOrder(h, key);
    var desc := KeysDesc(h, key);
    SortDescKeepsApart(order, DayRank, (d: string) => d);
    SortDescSorted(order, DayRank);
    DistinctMembers(Keys(h, key));
    forall d ensures d in desc <==> d in KeySet(h, key) {
      assert d in desc <==> d in multiset(order);
      if d in KeySet(h, key) {
        var i :| 0 <= i < |h| && key(h[i]) == d;
        assert Keys(h, key)[i] == d;
      }
    }
    forall i, j | 0 <= i < j < |desc| ensures StrLess(desc[j], desc[i]) {
      KeyNotLess(DayRank(desc[i]), DayRank(desc[j]));
      StrLessIrreflexive("");
    }
  }

  /** `flat`: the buckets in descending key order. */
  function Flat<T>(h: seq<T>, key: T -> string): seq<T> {
    Concat(h, key, KeysDesc(h, key))
  }

  /** The full list is a permutation of the history. */
  lemma FlatPermutation<T>(h: seq<T>, key: T -> string)
    ensures multiset(Flat(h, key)) == multiset(h)
  {
    KeysDescFacts(h, key);
    forall i | 0 <= i < |h| ensures key(h[i]) in KeysDesc(h, key) {
      assert key(h[i]) in KeySet(h, key);
    }
    ConcatPermutation(h, key, KeysDesc(h, key));
  }
}
