/**
 * `render_from_history`: the Markdown files rebuilt from the history. The
 * files are returned as a map from file name (inside the output directory)
 * to text, updated in the order the files are written, so a later write of
 * the same name replaces an earlier one.
 */
module Output {
  import opened Text
  import opened Records
  import opened Seqs
  import opened Ordering
  import opened Grouping
  import opened Render

  const AllArticlesFile: string := "all_articles.md"
  const LatestFile: string := "latest.md"
  const EmptyHistoryText: string := "# Historique (vide)\n\n"
  const EmptyLatestText: string := "# Résumés – (vide)\n\n_Aucun article._\n"

  /** `f"{day}.md"` */
  function DayFile(d: string): string {
    d + ".md"
  }

  /** Python's `max(s)` on strings: the first element no other exceeds. */
  function MaxOf(s: seq<string>): (m: string)
    requires s != []
    ensures m in s
  {
    if |s| == 1 then s[0]
    else
      var m := MaxOf(s[..|s| - 1]);
      if StrLess(m, s[|s| - 1]) then s[|s| - 1] else m
  }

  /** One file per day, written in the order of `days`, each the rendering
      of that day's bucket. */
  function DayDocs<T>(h: seq<T>, key: T -> string, days: seq<string>,
                      render: (string, seq<T>) -> string): map<string, string> {
    if days == [] then map[]
    else
      var n := |days| - 1;
      DayDocs(h, key, days[..n], render)[DayFile(days[n]) := render(days[n], Bucket(h, key, days[n]))]
  }

  /** `sorted(by_day.keys())`: the keys are distinct, so the ascending order
      is the descending order reversed. */
  function DaysAsc<T>(h: seq<T>, key: T -> string): seq<string> {
    Reverse(KeysDesc(h, key))
  }

  lemma KeysDescNonEmpty<T>(h: seq<T>, key: T -> string)
    requires KeySet(h, key) != {}
    ensures KeysDesc(h, key) != []
  {
    var d :| d in KeySet(h, key);
    KeysDescFacts(h, key);
    assert d in KeysDesc(h, key);
  }

  /** `latest_day = max(days_sorted)` */
  function Latest<T>(h: seq<T>, key: T -> string): string
    requires KeySet(h, key) != {}
  {
    KeysDescNonEmpty(h, key);
    MaxOf(DaysAsc(h, key))
  }

  /** The files `render_from_history` writes for records grouped by `key`
      and rendered by `render`: the two placeholders when there is no day,
      otherwise one file per day in ascending order, then `latest.md` and
      `all_articles.md`. */
  function DocumentsBy<T>(h: seq<T>, key: T -> string, render: (string, seq<T>) -> string)
    : map<string, string>
  {
    if KeySet(h, key) == {} then
      map[AllArticlesFile := EmptyHistoryText][LatestFile := EmptyLatestText]
    else
      var latest := Latest(h, key);
      DayDocs(h, key, DaysAsc(h, key), render)
        [LatestFile := render(latest, Bucket(h, key, latest))]
        [AllArticlesFile := render(latest, Flat(h, key))]
  }

  /** What `render_from_history(history)` writes. */
  function Documents(h: seq<Record>, today: string): map<string, string> {
    DocumentsBy(h, DayKeyOf(today), Markdown)
  }

  /** The body of `render_from_history`, on a history of objects. */
  method RenderFromHistory(history: seq<Record>, today: string) returns (docs: map<string, string>)
    ensures docs == Documents(history, today)
  {
    ghost var key := DayKeyOf(today);
    var days, byDay := GroupByDay(history, today);
    docs := RenderGrouped(history, key, days, byDay);
  }

  /** `render_from_history` after the grouping loop. */
  method RenderGrouped(history: seq<Record>, ghost key: Record -> string,
                       days: seq<string>, byDay: map<string, seq<Record>>)
    returns (docs: map<string, string>)
    requires days == KeyOrder(history, key)
    requires byDay == Buckets(history, key)
    ensures docs == DocumentsBy(history, key, Markdown)
  {
    if |byDay| == 0 {
      assert byDay.Keys == KeySet(history, key);
      docs := map[AllArticlesFile := EmptyHistoryText];
      docs := docs[LatestFile := EmptyLatestText];
      return;
    }
    assert byDay.Keys == KeySet(history, key);
    var desc := SortDesc(days, DayRank);
    var daysSorted := Reverse(desc);
    docs := RenderDays(history, key, byDay, daysSorted);
    var latestDay := MaxOf(daysSorted);
    ghost var j :| 0 <= j < |daysSorted| && daysSorted[j] == latestDay;
    AscBucket(history, key, byDay, daysSorted, j);
    var latestText := RenderMarkdown(latestDay, byDay[latestDay]);
    docs := docs[LatestFile := latestText];
    var flat := Flatten(history, key, byDay, desc);
    var allText := RenderMarkdown(latestDay, flat);
    docs := docs[AllArticlesFile := allText];
  }

  /** The first loop of `render_from_history`: one file per day, ascending. */
  method RenderDays(history: seq<Record>, ghost key: Record -> string,
                    byDay: map<string, seq<Record>>, daysSorted: seq<string>)
    returns (docs: map<string, string>)
    requires byDay == Buckets(history, key)
    requires daysSorted == DaysAsc(history, key)
    ensures docs == DayDocs(history, key, daysSorted, Markdown)
  {
    docs := map[];
    for i := 0 to |daysSorted|
      invariant docs == DayDocs(history, key, daysSorted[..i], Markdown)
    {
      var day := daysSorted[i];
      AscBucket(history, key, byDay, daysSorted, i);
      var mdText := RenderMarkdown(day, byDay[day]);
      DayDocsSnoc(history, key, daysSorted, i, Markdown);
      docs := docs[DayFile(day) := mdText];
    }
    assert daysSorted[..|daysSorted|] == daysSorted;
  }

  /** `[a for d in sorted(days, reverse=True) for a in by_day[d]]` */
  method Flatten<T>(history: seq<T>, ghost key: T -> string,
                    byDay: map<string, seq<T>>, desc: seq<string>)
    returns (flat: seq<T>)
    requires byDay == Buckets(history, key)
    requires desc == KeysDesc(history, key)
    ensures flat == Flat(history, key)
  {
    flat := [];
    for i := 0 to |desc|
      invariant flat == Concat(history, key, desc[..i])
    {
      DescBucket(history, key, byDay, i);
      ConcatStep(history, key, desc, i);
      flat := flat + byDay[desc[i]];
    }
    assert desc[..|desc|] == desc;
  }

  /** The bucket of the `i`-th day in descending order is in `by_day`. */
  lemma DescBucket<T>(h: seq<T>, key: T -> string, byDay: map<string, seq<T>>, i: nat)
    requires byDay == Buckets(h, key)
    requires i < |KeysDesc(h, key)|
    ensures KeysDesc(h, key)[i] in byDay && byDay[KeysDesc(h, key)[i]] == Bucket(h, key, KeysDesc(h, key)[i])
  {
    KeysDescFacts(h, key);
    assert KeysDesc(h, key)[i] in KeysDesc(h, key);
  }

  /** The bucket of the `i`-th day in ascending order is in `by_day`. */
  lemma AscBucket<T>(h: seq<T>, key: T -> string, byDay: map<string, seq<T>>, asc: seq<string>, i: nat)
    requires byDay == Buckets(h, key)
    requires asc == DaysAsc(h, key)
    requires i < |asc|
    ensures asc[i] in byDay && byDay[asc[i]] == Bucket(h, key, asc[i])
  {
    var desc := KeysDesc(h, key);
    var k := |desc| - 1 - i;
    assert asc[i] == desc[k];
    DescBucket(h, key, byDay, k);
  }

  lemma ConcatStep<T>(h: seq<T>, key: T -> string, ks: seq<string>, i: nat)
    requires i < |ks|
    ensures Concat(h, key, ks[..i + 1]) == Concat(h, key, ks[..i]) + Bucket(h, key, ks[i])
  {
    assert ks[..i + 1][..i] == ks[..i];
  }

  lemma DayDocsSnoc<T>(h: seq<T>, key: T -> string, days: seq<string>, i: nat,
                       render: (string, seq<T>) -> string)
    requires i < |days|
    ensures DayDocs(h, key, days[..i + 1], render)
         == DayDocs(h, key, days[..i], render)[DayFile(days[i]) := render(days[i], Bucket(h, key, days[i]))]
  {
    assert days[..i + 1][..i] == days[..i];
  }

  // ---------------------------------------------------------------------------
  // The maximum day

  /** `max` returns an element that no element exceeds. */
  lemma {:induction false} MaxOfIsMax(s: seq<string>)
    requires s != []
    ensures forall i :: 0 <= i < |s| ==> !StrLess(MaxOf(s), s[i])
  {
    if |s| == 1 {
      StrLessIrreflexive(s[0]);
    } else {
      var p := s[..|s| - 1];
      var x := s[|s| - 1];
      MaxOfIsMax(p);
      var m := MaxOf(p);
      assert MaxOf(s) == if StrLess(m, x) then x else m;
      forall i | 0 <= i < |s| ensures !StrLess(MaxOf(s), s[i]) {
        if i < |p| {
          assert s[i] == p[i];
          if StrLess(m, x) && StrLess(x, s[i]) {
            StrLessTransitive(m, x, s[i]);
          }
        } else {
          StrLessIrreflexive(x);
        }
      }
    }
  }

  /** The latest day is a key of `by_day`, every other key is smaller, and
      it heads the descending order. */
  lemma LatestFacts<T>(h: seq<T>, key: T -> string)
    requires KeySet(h, key) != {}
    ensures Latest(h, key) in KeySet(h, key)
    ensures forall d :: d in KeySet(h, key) ==> d == Latest(h, key) || StrLess(d, Latest(h, key))
    ensures KeysDesc(h, key) != [] && KeysDesc(h, key)[0] == Latest(h, key)
  {
    var desc := KeysDesc(h, key);
    var asc := DaysAsc(h, key);
    KeysDescNonEmpty(h, key);
    KeysDescFacts(h, key);
    var m := Latest(h, key);
    MaxOfIsMax(asc);
    var j :| 0 <= j < |asc| && asc[j] == m;
    assert asc[|asc| - 1] == desc[0];
    assert !StrLess(m, desc[0]);
    assert desc[|desc| - 1 - j] == m;
    assert m == desc[0];
    forall d | d in KeySet(h, key) ensures d == m || StrLess(d, m) {
      assert d in desc;
      var k :| 0 <= k < |desc| && desc[k] == d;
    }
  }

  // ---------------------------------------------------------------------------
  // The files written

  lemma DayFileInjective(a: string, b: string)
    requires DayFile(a) == DayFile(b)
    ensures a == b
  {
    assert a == DayFile(a)[..|a|];
    assert b == DayFile(b)[..|b|];
  }

  /** The per-day files: one per day, each the rendering of that day's bucket. */
  lemma {:induction false} DayDocsContents<T>(h: seq<T>, key: T -> string, days: seq<string>,
                                              render: (string, seq<T>) -> string)
    ensures forall i :: 0 <= i < |days| ==>
              DayFile(days[i]) in DayDocs(h, key, days, render)
              && DayDocs(h, key, days, render)[DayFile(days[i])] == render(days[i], Bucket(h, key, days[i]))
    ensures forall f :: f in DayDocs(h, key, days, render) ==> exists i :: 0 <= i < |days| && f == DayFile(days[i])
  {
    if days != [] {
      var n := |days| - 1;
      var p := days[..n];
      DayDocsContents(h, key, p, render);
      forall i | 0 <= i < n ensures p[i] == days[i] { }
      forall i | 0 <= i < |days|
        ensures DayFile(days[i]) in DayDocs(h, key, days, render)
             && DayDocs(h, key, days, render)[DayFile(days[i])] == render(days[i], Bucket(h, key, days[i]))
      {
        if i < n && DayFile(days[i]) == DayFile(days[n]) {
          DayFileInjective(days[i], days[n]);
        }
      }
      forall f | f in DayDocs(h, key, days, render) ensures exists i :: 0 <= i < |days| && f == DayFile(days[i]) {
        if f != DayFile(days[n]) {
          var i :| 0 <= i < n && f == DayFile(p[i]);
          assert f == DayFile(days[i]);
        }
      }
    }
  }

  /** An empty history gives the two placeholder files, the latest one
      being the rendering of "(vide)" without articles. */
  lemma DocumentsEmpty(h: seq<Record>, today: string)
    requires h == []
    ensures Documents(h, today) == map[AllArticlesFile := EmptyHistoryText, LatestFile := EmptyLatestText]
    ensures EmptyLatestText == Markdown("(vide)", [])
  {
    assert KeySet(h, DayKeyOf(today)) == {};
  }

  /** The buckets in descending day order start with the latest day's. */
  lemma {:induction false} ConcatFirst<T>(h: seq<T>, key: T -> string, keys: seq<string>)
    requires keys != []
    ensures Concat(h, key, keys) == Bucket(h, key, keys[0]) + Concat(h, key, keys[1..])
    decreases |keys|
  {
    var n := |keys| - 1;
    if n == 0 {
      assert keys[..n] == [] && keys[1..] == [];
    } else {
      var p := keys[..n];
      assert p[0] == keys[0];
      ConcatFirst(h, key, p);
      assert p[1..] == keys[1..][..n - 1];
      assert keys[1..][n - 1] == keys[n];
    }
  }

  /** The day files: one per key, holding the rendering of its bucket. */
  lemma DayDocsOfKeys<T>(h: seq<T>, key: T -> string, render: (string, seq<T>) -> string)
    ensures DayDocs(h, key, DaysAsc(h, key), render).Keys == set d | d in KeySet(h, key) :: DayFile(d)
    ensures forall d :: d in KeySet(h, key) ==>
              DayDocs(h, key, DaysAsc(h, key), render)[DayFile(d)] == render(d, Bucket(h, key, d))
  {
    var days := DayDocs(h, key, DaysAsc(h, key), render);
    var asc := DaysAsc(h, key);
    var desc := KeysDesc(h, key);
    KeysDescFacts(h, key);
    DayDocsContents(h, key, asc, render);
    forall d | d in KeySet(h, key)
      ensures DayFile(d) in days && days[DayFile(d)] == render(d, Bucket(h, key, d))
    {
      assert d in desc;
      var k :| 0 <= k < |desc| && desc[k] == d;
      assert asc[|desc| - 1 - k] == d;
    }
    forall f | f in days ensures f in set d | d in KeySet(h, key) :: DayFile(d) {
      var i :| 0 <= i < |asc| && f == DayFile(asc[i]);
      assert asc[i] == desc[|desc| - 1 - i];
      assert asc[i] in desc;
    }
  }

  /** When no day file can be named like `latest.md` or `all_articles.md`:
      there is one file per day holding the rendering of that day's bucket,
      no other day file, and the two fixed files. */
  lemma DocumentsByFiles<T>(h: seq<T>, key: T -> string, render: (string, seq<T>) -> string)
    requires KeySet(h, key) != {}
    requires forall d :: d in KeySet(h, key) ==> DayFile(d) != LatestFile && DayFile(d) != AllArticlesFile
    ensures DocumentsBy(h, key, render).Keys
         == (set d | d in KeySet(h, key) :: DayFile(d)) + {LatestFile, AllArticlesFile}
    ensures forall d :: d in KeySet(h, key) ==>
              DocumentsBy(h, key, render)[DayFile(d)] == render(d, Bucket(h, key, d))
    ensures DocumentsBy(h, key, render)[LatestFile] == render(Latest(h, key), Bucket(h, key, Latest(h, key)))
    ensures DocumentsBy(h, key, render)[AllArticlesFile] == render(Latest(h, key), Flat(h, key))
  {
    var days := DayDocs(h, key, DaysAsc(h, key), render);
    var latest := Latest(h, key);
    var docs := days[LatestFile := render(latest, Bucket(h, key, latest))]
                    [AllArticlesFile := render(latest, Flat(h, key))];
    assert DocumentsBy(h, key, render) == docs;
    DayDocsOfKeys(h, key, render);
  }

  /** `all_articles.md` begins with the text of `latest.md`: the latest
      day's bucket comes first in the full list, and both carry the latest
      day's header. */
  lemma LatestIsPrefixOfAll(h: seq<Record>, key: Record -> string)
    requires KeySet(h, key) != {}
    ensures Markdown(Latest(h, key), Bucket(h, key, Latest(h, key))) <= Markdown(Latest(h, key), Flat(h, key))
  {
    var latest := Latest(h, key);
    var desc := KeysDesc(h, key);
    LatestFacts(h, key);
    ConcatFirst(h, key, desc);
    var b := Bucket(h, key, latest);
    var rest := Concat(h, key, desc[1..]);
    BucketNonEmpty(h, key, latest);
    if rest == [] {
      assert b + rest == b;
    } else {
      MarkdownConcat(latest, b, rest);
    }
  }

  /** A day key is an ISO day or `today`, so with `today` an ISO day no day
      file is named `latest.md` or `all_articles.md`. */
  lemma DayFilesApart(h: seq<Record>, today: string)
    requires IsIsoDay(today)
    ensures forall d :: d in KeySet(h, DayKeyOf(today)) ==> DayFile(d) != LatestFile && DayFile(d) != AllArticlesFile
  {
    forall d | d in KeySet(h, DayKeyOf(today)) ensures DayFile(d) != LatestFile && DayFile(d) != AllArticlesFile {
      var j :| 0 <= j < |h| && DayKey(h[j], today) == d;
      assert IsIsoDay(d);
      assert DayFile(d)[0] != LatestFile[0] && DayFile(d)[0] != AllArticlesFile[0];
    }
  }

  /** For a non-empty history, with `today` an ISO day: one file per day
      holding the rendering of that day's bucket and no other day file;
      `latest.md` renders the latest day's bucket; `all_articles.md` renders,
      under the latest day's header, every record of the history bucket by
      bucket in descending day order, and begins with the text of
      `latest.md`. */
  lemma DocumentsNonEmpty(h: seq<Record>, today: string)
    requires h != [] && IsIsoDay(today)
    ensures var key := DayKeyOf(today);
            var docs := Documents(h, today);
            && KeySet(h, key) != {}
            && docs.Keys == (set d | d in KeySet(h, key) :: DayFile(d)) + {LatestFile, AllArticlesFile}
            && (forall d :: d in KeySet(h, key) ==> docs[DayFile(d)] == Markdown(d, Bucket(h, key, d)))
            && docs[LatestFile] == Markdown(Latest(h, key), Bucket(h, key, Latest(h, key)))
            && docs[AllArticlesFile] == Markdown(Latest(h, key), Flat(h, key))
            && multiset(Flat(h, key)) == multiset(h)
            && docs[LatestFile] <= docs[AllArticlesFile]
  {
    var key := DayKeyOf(today);
    assert DayKey(h[0], today) in KeySet(h, key);
    DayFilesApart(h, today);
    DocumentsByFiles(h, key, Markdown);
    FlatPermutation(h, key);
    LatestIsPrefixOfAll(h, key);
  }
}
