/**
 * Reconciling the history (`main.py`, the "Dédup + tri" block): a dict keyed
 * by id is filled from the history list in order, so an id keeps the place
 * where it first occurs and takes the record of its last occurrence; the
 * dict's values are then sorted, stably, by (pub_date, added_on) descending.
 */
module History {
  import opened Records
  import opened Seqs
  import opened Ordering

  /** The ids of the entries the dedup loop keeps, in history order, repeats included. */
  function ValidIds(h: seq<Entry>): (r: seq<string>)
    ensures forall j :: 0 <= j < |h| && HasId(h[j]) ==> IdOf(h[j]) in r
    ensures forall i :: 0 <= i < |r| ==> r[i] != ""
  {
    if h == [] then []
    else
      var n := |h| - 1;
      assert forall j :: 0 <= j < n ==> h[..n][j] == h[j];
      ValidIds(h[..n]) + (if HasId(h[n]) then [IdOf(h[n])] else [])
  }

  /** Every listed id is the id of an entry that has one: the `j` returned. */
  lemma {:induction false} ValidIdsSound(h: seq<Entry>, i: nat) returns (j: nat)
    requires i < |ValidIds(h)|
    ensures j < |h| && HasId(h[j]) && IdOf(h[j]) == ValidIds(h)[i]
  {
    var n := |h| - 1;
    if i < |ValidIds(h[..n])| {
      j := ValidIdsSound(h[..n], i);
      assert h[..n][j] == h[j];
    } else {
      j := n;
    }
  }

  /** The ids of a concatenation are the ids of each part, in order. */
  lemma {:induction false} ValidIdsConcat(a: seq<Entry>, b: seq<Entry>)
    ensures ValidIds(a + b) == ValidIds(a) + ValidIds(b)
    decreases |b|
  {
    if b == [] {
      assert a + b == a;
    } else {
      var n := |b| - 1;
      assert (a + b)[..|a| + n] == a + b[..n];
      assert (a + b)[|a| + n] == b[n];
      ValidIdsConcat(a, b[..n]);
    }
  }

  /** Where the last entry with id `id` stands. */
  function LastIndex(h: seq<Entry>, id: string): (j: nat)
    requires id in ValidIds(h)
    ensures j < |h| && HasId(h[j]) && IdOf(h[j]) == id
    ensures forall k :: j < k < |h| ==> !(HasId(h[k]) && IdOf(h[k]) == id)
  {
    var n := |h| - 1;
    if HasId(h[n]) && IdOf(h[n]) == id then n
    else
      var j := LastIndex(h[..n], id);
      assert h[..n][j] == h[j];
      assert forall k :: j < k < n ==> h[..n][k] == h[k];
      j
  }

  /** The dict's key order: each id where it first occurs. */
  function IdOrder(h: seq<Entry>): seq<string>
  {
    Distinct(ValidIds(h))
  }

  /** `list(dedup.values())`: for each id in key order, the last record with it. */
  function Dedup(h: seq<Entry>): seq<Record>
  {
    var ids := IdOrder(h);
    seq(|ids|, i requires 0 <= i < |ids| => h[LastIndex(h, ids[i])].rec)
  }

  /** The sort key `(a.get("pub_date", ""), a.get("added_on", ""))`. */
  function HistoryKey(r: Record): Key
  {
    (GetOr(r.pubDate, ""), GetOr(r.addedOn, ""))
  }

  /** The history as `main` saves and renders it. */
  function Normalize(h: seq<Entry>): seq<Record>
  {
    SortDesc(Dedup(h), HistoryKey)
  }

  /** The dedup loop, with the dict kept as its key order and its key-to-value map. */
  method DedupHistory(history: seq<Entry>) returns (hist: seq<Record>)
    ensures hist == Dedup(history)
  {
    var keys: seq<string> := [];
    var vals: map<string, Record> := map[];
    for i := 0 to |history|
      invariant Mirrors(history[..i], keys, vals)
    {
      var a := history[i];
      if a.Dict? && a.rec.id.Some? && a.rec.id.value != "" {
        var id := a.rec.id.value;
        MirrorsSet(history, i, keys, vals);
        // `dedup[id] = a`: a new key joins the end of the key order, a known
        // key keeps its place; either way the key now maps to `a`.
        if id !in vals {
          keys := keys + [id];
        }
        vals := vals[id := a.rec];
      } else {
        MirrorsSkip(history, i, keys, vals);
      }
    }
    assert history[..|history|] == history;
    hist := seq(|keys|, j requires 0 <= j < |keys| => vals[keys[j]]);
    MirrorsValues(history, keys, vals);
  }

  /** An id the new entry does not carry keeps its last place. */
  lemma LastIndexExtend(h: seq<Entry>, i: nat, id: string)
    requires i < |h| && id in ValidIds(h[..i]) && !(HasId(h[i]) && IdOf(h[i]) == id)
    ensures id in ValidIds(h[..i + 1])
    ensures LastIndex(h[..i + 1], id) == LastIndex(h[..i], id)
    ensures h[..i + 1][LastIndex(h[..i], id)] == h[..i][LastIndex(h[..i], id)]
  {
    ExtendPrefix(h, i);
    assert h[..i + 1][..i] == h[..i];
  }

  /** `keys` and `vals` hold the dict the dedup loop has built from `h`. */
  ghost predicate Mirrors(h: seq<Entry>, keys: seq<string>, vals: map<string, Record>) {
    && keys == IdOrder(h)
    && (forall id :: id in vals <==> id in keys)
    && (forall id :: id in vals ==>
          id in ValidIds(h) && vals[id] == h[LastIndex(h, id)].rec)
  }

  /** An entry the dedup loop skips leaves the dict as it was. */
  lemma MirrorsSkip(h: seq<Entry>, i: nat, keys: seq<string>, vals: map<string, Record>)
    requires i < |h| && !HasId(h[i]) && Mirrors(h[..i], keys, vals)
    ensures Mirrors(h[..i + 1], keys, vals)
  {
    var q := h[..i + 1];
    ExtendPrefix(h, i);
    forall id | id in vals
      ensures id in ValidIds(q) && vals[id] == q[LastIndex(q, id)].rec
    {
      LastIndexExtend(h, i, id);
    }
  }

  /** `dedup[id] = a` for the entry `h[i]`. */
  lemma MirrorsSet(h: seq<Entry>, i: nat, keys: seq<string>, vals: map<string, Record>)
    requires i < |h| && HasId(h[i]) && Mirrors(h[..i], keys, vals)
    ensures Mirrors(h[..i + 1], if IdOf(h[i]) in vals then keys else keys + [IdOf(h[i])],
                    vals[IdOf(h[i]) := h[i].rec])
  {
    var q := h[..i + 1];
    ExtendPrefix(h, i);
    var x := IdOf(h[i]);
    var keys' := if x in vals then keys else keys + [x];
    var vals' := vals[x := h[i].rec];
    assert keys' == IdOrder(q);
    assert q[i] == h[i];
    forall id | id in vals'
      ensures id in ValidIds(q) && vals'[id] == q[LastIndex(q, id)].rec
    {
      if id != x {
        LastIndexExtend(h, i, id);
      }
    }
  }

  lemma MirrorsValues(h: seq<Entry>, keys: seq<string>, vals: map<string, Record>)
    requires Mirrors(h, keys, vals)
    ensures seq(|keys|, j requires 0 <= j < |keys| => vals[keys[j]]) == Dedup(h)
  {
  }

  /** One more entry: how the ids, their order and their last places change. */
  lemma ExtendPrefix(h: seq<Entry>, i: nat)
    requires i < |h|
    ensures ValidIds(h[..i + 1]) == ValidIds(h[..i]) + (if HasId(h[i]) then [IdOf(h[i])] else [])
    ensures IdOrder(h[..i + 1])
         == if HasId(h[i]) && IdOf(h[i]) !in IdOrder(h[..i]) then IdOrder(h[..i]) + [IdOf(h[i])]
            else IdOrder(h[..i])
    ensures HasId(h[i]) ==> LastIndex(h[..i + 1], IdOf(h[i])) == i
  {
    var p := h[..i + 1];
    assert p[..i] == h[..i];
    assert p[i] == h[i];
    var v := ValidIds(h[..i]);
    assert ValidIds(p) == v + (if HasId(h[i]) then [IdOf(h[i])] else []);
    if HasId(h[i]) {
      var w := v + [IdOf(h[i])];
      assert w[..|w| - 1] == v;
      assert w[|w| - 1] == IdOf(h[i]);
      assert Distinct(w) == if IdOf(h[i]) in Distinct(v) then Distinct(v) else Distinct(v) + [IdOf(h[i])];
    } else {
      assert v + [] == v;
    }
  }

  // ---------------------------------------------------------------------------
  // What the dedup keeps

  /** After the dedup every record has a non-empty id and no id repeats; the
      ids come in the order in which they first occur in the history; every
      well-formed entry's id is kept; and the record kept for an id is the
      history's last well-formed entry with that id. Objects without an id and
      non-objects are dropped. */
  lemma DedupKeepsLastAtFirst(h: seq<Entry>)
    ensures UniqueIds(Dedup(h))
    ensures |Dedup(h)| == |IdOrder(h)|
    ensures forall i :: 0 <= i < |Dedup(h)| ==> Dedup(h)[i].id == Some(IdOrder(h)[i])
    ensures forall i, i' :: 0 <= i < i' < |Dedup(h)| ==>
              IndexOf(ValidIds(h), IdOrder(h)[i]) < IndexOf(ValidIds(h), IdOrder(h)[i'])
    ensures forall j :: 0 <= j < |h| && HasId(h[j]) ==>
              exists i :: 0 <= i < |Dedup(h)| && Dedup(h)[i].id == Some(IdOf(h[j]))
    ensures forall i :: 0 <= i < |Dedup(h)| ==>
              exists j :: 0 <= j < |h| && h[j] == Dict(Dedup(h)[i])
                && forall k :: j < k < |h| && HasId(h[k]) ==> IdOf(h[k]) != IdOf(h[j])
  {
    var ids := IdOrder(h);
    var d := Dedup(h);
    DistinctFirstOrder(ValidIds(h));
    forall j | 0 <= j < |h| && HasId(h[j])
      ensures exists i :: 0 <= i < |d| && d[i].id == Some(IdOf(h[j]))
    {
      var i := IndexOf(ids, IdOf(h[j]));
      assert d[i].id == Some(ids[i]);
    }
    forall i | 0 <= i < |d|
      ensures exists j :: 0 <= j < |h| && h[j] == Dict(d[i])
                && forall k :: j < k < |h| && HasId(h[k]) ==> IdOf(h[k]) != IdOf(h[j])
    {
      var j := LastIndex(h, ids[i]);
      assert h[j] == Dict(d[i]);
    }
  }

  /** The history as saved: ids unique, non-increasing by (pub_date, added_on),
      a permutation of the dedup output, equal keys left in dedup order, and
      no well-formed entry's id lost. */
  lemma NormalizedHistory(h: seq<Entry>)
    ensures UniqueIds(Normalize(h))
    ensures SortedDesc(Normalize(h), HistoryKey)
    ensures multiset(Normalize(h)) == multiset(Dedup(h))
    ensures forall k :: WithKey(Normalize(h), HistoryKey, k) == WithKey(Dedup(h), HistoryKey, k)
    ensures forall j :: 0 <= j < |h| && HasId(h[j]) ==>
              exists i :: 0 <= i < |Normalize(h)| && Normalize(h)[i].id == Some(IdOf(h[j]))
  {
    var d := Dedup(h);
    SortDescSorted(d, HistoryKey);
    forall k {
      SortDescStable(d, HistoryKey, k);
    }
    NormalizeUnique(h);
    NormalizeKeepsIds(h);
  }

  lemma NormalizeUnique(h: seq<Entry>)
    ensures UniqueIds(Normalize(h))
  {
    var d := Dedup(h);
    var n := Normalize(h);
    DedupKeepsLastAtFirst(h);
    SortDescKeepsApart(d, HistoryKey, (r: Record) => r.id);
    forall i | 0 <= i < |n| ensures n[i].id.Some? && n[i].id.value != "" {
      assert n[i] in multiset(d);
    }
  }

  lemma NormalizeKeepsIds(h: seq<Entry>)
    ensures forall j :: 0 <= j < |h| && HasId(h[j]) ==>
              exists i :: 0 <= i < |Normalize(h)| && Normalize(h)[i].id == Some(IdOf(h[j]))
  {
    var d := Dedup(h);
    var n := Normalize(h);
    DedupKeepsLastAtFirst(h);
    forall j | 0 <= j < |h| && HasId(h[j])
      ensures exists i :: 0 <= i < |n| && n[i].id == Some(IdOf(h[j]))
    {
      var m :| 0 <= m < |d| && d[m].id == Some(IdOf(h[j]));
      assert d[m] in multiset(n);
      var i :| 0 <= i < |n| && n[i] == d[m];
    }
  }

  // ---------------------------------------------------------------------------
  // Reconciling a reconciled history again

  lemma {:induction false} ValidIdsOfRecords(s: seq<Record>)
    requires UniqueIds(s)
    ensures ValidIds(AsEntries(s)) == seq(|s|, i requires 0 <= i < |s| => s[i].id.value)
  {
    if s != [] {
      var n := |s| - 1;
      assert AsEntries(s)[..n] == AsEntries(s[..n]);
      assert UniqueIds(s[..n]);
      ValidIdsOfRecords(s[..n]);
    }
  }

  lemma LastIndexOfUnique(s: seq<Record>, i: nat)
    requires UniqueIds(s) && i < |s|
    ensures s[i].id.value in ValidIds(AsEntries(s))
    ensures LastIndex(AsEntries(s), s[i].id.value) == i
  {
    var h := AsEntries(s);
    assert HasId(h[i]);
    var j := LastIndex(h, s[i].id.value);
    assert h[j] == Dict(s[j]);
  }

  /** A history whose ids are already unique passes the dedup unchanged. */
  lemma DedupOfUnique(s: seq<Record>)
    requires UniqueIds(s)
    ensures Dedup(AsEntries(s)) == s
  {
    var h := AsEntries(s);
    var v := ValidIds(h);
    ValidIdsOfRecords(s);
    assert AllDistinct(v);
    DistinctOfDistinct(v);
    assert IdOrder(h) == v;
    forall i | 0 <= i < |s| ensures Dedup(h)[i] == s[i] {
      LastIndexOfUnique(s, i);
    }
  }

  /** Reconciling is idempotent: the saved history reconciles to itself. */
  lemma NormalizeIdempotent(h: seq<Entry>)
    ensures Normalize(AsEntries(Normalize(h))) == Normalize(h)
  {
    NormalizedHistory(h);
    DedupOfUnique(Normalize(h));
    SortDescOfSorted(Normalize(h), HistoryKey);
  }
}
