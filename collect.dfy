/**
 * The two collection loops of `main`: the first reads every feed and keeps
 * the entries worth processing as items; the second fetches and summarizes
 * each item, and each one processed without an exception is marked as seen
 * and appended to the history.
 *
 * The feed parser, the URL helpers, the hash, the HTML stripper, the page
 * fetcher and the summarizer are collaborators outside the model: they are
 * the fields of `Services`, and the two that may raise return an `Attempt`.
 */
module Collect {
  import opened Text
  import opened Records

  /** The outcome of a call that may raise. */
  datatype Attempt<T> = Returned(value: T) | Raised

  /** A feed entry as the parser gives it: each text is "" when the field is
      missing or empty. `summaryDetail` is the value of a `summary_detail`
      object, `firstContent` the value of the first `content` object, and
      `pubDate` what `parse_pub_date` makes of the entry's dates. */
  datatype FeedEntry = FeedEntry(
    title: string,
    link: string,
    summary: string,
    summaryDetail: string,
    firstContent: string,
    pubDate: string)

  /** `feedparser.parse(url)`: the malformed-feed flag and the entries. */
  datatype Feed = Feed(bozo: bool, entries: seq<FeedEntry>)

  datatype Services = Services(
    parseFeed: string -> Feed,
    originalUrl: string -> string,   // extract_original_url
    domainOf: string -> string,      // domain_of
    hashId: string -> string,        // hash_id
    htmlToText: string -> string,    // html_to_text on a non-empty text
    fetchText: (string, int) -> Attempt<string>,  // fetch_text(url, timeout)
    summarize: (string, int) -> Attempt<string>)  // summarize_text(text, sentences)

  /** `hash_id` is the first ten hexadecimal digits of a SHA-1 digest, so it
      is never empty. */
  ghost predicate HashNonEmpty(svc: Services) {
    forall s :: svc.hashId(s) != ""
  }

  /** One item of the first loop. */
  datatype Item = Item(
    uid: string,
    title: string,
    link: string,
    source: string,
    hint: string,
    pubDate: string)

  /** The summary of an item whose text yields none. */
  const Placeholder: string := "- (Résumé indisponible – texte non détecté)."

  /** `[f(x) for x in s if f(x) is not None]`, in order. */
  function FilterMap<A, B>(f: A -> Option<B>, s: seq<A>): seq<B> {
    if s == [] then []
    else
      var n := |s| - 1;
      FilterMap(f, s[..n]) + (match f(s[n]) case Some(y) => [y] case None => [])
  }

  // ---------------------------------------------------------------------------
  // The first loop: which entries become items

  /** The HTML of the hint: the first non-empty of the summary, the summary
      detail and the first content. */
  function HintHtml(e: FeedEntry): (h: string)
    ensures h == "" <==> e.summary == "" && e.summaryDetail == "" && e.firstContent == ""
    ensures h == e.summary || h == e.summaryDetail || h == e.firstContent
    ensures e.summary != "" ==> h == e.summary
    ensures e.summary == "" && e.summaryDetail != "" ==> h == e.summaryDetail
  {
    if e.summary != "" then e.summary
    else if e.summaryDetail != "" then e.summaryDetail
    else e.firstContent
  }

  /** `html_to_text`: an empty text stays empty. */
  function HtmlToText(svc: Services, html: string): (t: string)
    ensures html == "" ==> t == ""
  {
    if html == "" then "" else svc.htmlToText(html)
  }

  /** `orig or link`: the original URL when there is one, else the link. */
  function Target(svc: Services, link: string): (t: string)
    requires link != ""
    ensures t != ""
    ensures t == link || t == svc.originalUrl(link)
    ensures svc.originalUrl(link) != "" ==> t == svc.originalUrl(link)
    ensures svc.originalUrl(link) == "" ==> t == link
  {
    var orig := svc.originalUrl(link);
    if orig != "" then orig else link
  }

  /** The item an entry contributes, if any. */
  function CandidateOf(svc: Services, e: FeedEntry, forceAll: bool, seen: set<string>): (c: Option<Item>)
    ensures c.None? <==> Strip(e.link) == "" || (!forceAll && svc.hashId(Target(svc, Strip(e.link))) in seen)
    ensures c.Some? ==>
              && c.value.link == Target(svc, Strip(e.link))
              && c.value.uid == svc.hashId(c.value.link)
              && (forceAll || c.value.uid !in seen)
              && c.value.source == svc.domainOf(c.value.link)
              && c.value.title != ""
              && c.value.title == (if Strip(e.title) != "" then Strip(e.title) else Untitled)
              && c.value.hint == HtmlToText(svc, HintHtml(e))
              && c.value.pubDate == e.pubDate
  {
    var title := Strip(e.title);
    var link := Strip(e.link);
    if link == "" then None
    else
      var target := Target(svc, link);
      var uid := svc.hashId(target);
      if !forceAll && uid in seen then None
      else
        Some(Item(uid, if title != "" then title else Untitled, target,
                  svc.domainOf(target), HtmlToText(svc, HintHtml(e)), e.pubDate))
  }

  function Candidate(svc: Services, forceAll: bool, seen: set<string>): FeedEntry -> Option<Item> {
    e => CandidateOf(svc, e, forceAll, seen)
  }

  /** Python's `s[:n]`, where a negative `n` drops the last `-n` elements. */
  function Window<T>(s: seq<T>, n: int): (w: seq<T>)
    ensures w <= s
    ensures 0 <= n ==> |w| == if n < |s| then n else |s|
    ensures n < 0 ==> |w| == if |s| + n < 0 then 0 else |s| + n
  {
    if 0 <= n then (if n < |s| then s[..n] else s)
    else if |s| + n < 0 then []
    else s[..|s| + n]
  }

  /** A feed flagged as malformed and without entries is skipped. */
  predicate Skipped(fp: Feed) {
    fp.bozo && fp.entries == []
  }

  /** The items one feed contributes. */
  function FeedItems(svc: Services, url: string, maxPerFeed: int, forceAll: bool, seen: set<string>): seq<Item> {
    var fp := svc.parseFeed(url);
    if Skipped(fp) then []
    else FilterMap(Candidate(svc, forceAll, seen), Window(fp.entries, maxPerFeed))
  }

  function FeedItemsOf(svc: Services, maxPerFeed: int, forceAll: bool, seen: set<string>): string -> seq<Item> {
    url => FeedItems(svc, url, maxPerFeed, forceAll, seen)
  }

  /** `[y for x in s for y in g(x)]` */
  function ConcatMap<A, B>(g: A -> seq<B>, s: seq<A>): seq<B> {
    if s == [] then []
    else
      var n := |s| - 1;
      ConcatMap(g, s[..n]) + g(s[n])
  }

  /** The `items` list after the first loop, feed after feed. */
  function Candidates(svc: Services, feeds: seq<string>, maxPerFeed: int, forceAll: bool,
                      seen: set<string>): seq<Item> {
    ConcatMap(FeedItemsOf(svc, maxPerFeed, forceAll, seen), feeds)
  }

  /** The first loop of `main`. */
  method CollectItems(svc: Services, feeds: seq<string>, maxPerFeed: int, forceAll: bool,
                      seen: set<string>) returns (items: seq<Item>)
    ensures items == Candidates(svc, feeds, maxPerFeed, forceAll, seen)
  {
    var cand := Candidate(svc, forceAll, seen);
    var feedItems := FeedItemsOf(svc, maxPerFeed, forceAll, seen);
    items := [];
    for k := 0 to |feeds|
      invariant items == ConcatMap(feedItems, feeds[..k])
    {
      ConcatMapStep(feedItems, feeds, k);
      var fp := svc.parseFeed(feeds[k]);
      if !(fp.bozo && |fp.entries| == 0) {
        var window := Window(fp.entries, maxPerFeed);
        var found := FeedEntryItems(cand, window);
        items := items + found;
      }
    }
    assert feeds[..|feeds|] == feeds;
  }

  /** The inner loop of the first loop, over one feed's window of entries. */
  method FeedEntryItems<A, B>(f: A -> Option<B>, window: seq<A>) returns (items: seq<B>)
    ensures items == FilterMap(f, window)
  {
    items := [];
    for i := 0 to |window|
      invariant items == FilterMap(f, window[..i])
    {
      FilterMapStep(f, window, i);
      var c := f(window[i]);
      if c.Some? {
        items := items + [c.value];
      }
    }
    assert window[..|window|] == window;
  }

  lemma FilterMapStep<A, B>(f: A -> Option<B>, s: seq<A>, i: nat)
    requires i < |s|
    ensures FilterMap(f, s[..i + 1]) == FilterMap(f, s[..i]) + (match f(s[i]) case Some(y) => [y] case None => [])
  {
    assert s[..i + 1][..i] == s[..i];
  }

  lemma ConcatMapStep<A, B>(g: A -> seq<B>, s: seq<A>, k: nat)
    requires k < |s|
    ensures ConcatMap(g, s[..k + 1]) == ConcatMap(g, s[..k]) + g(s[k])
  {
    assert s[..k + 1][..k] == s[..k];
  }

  // ---------------------------------------------------------------------------
  // The second loop: which items are recorded

  /** `full or hint or title`: the first non-empty of the three. */
  function BaseText(full: string, hint: string, title: string): (b: string)
    ensures b == "" <==> full == "" && hint == "" && title == ""
    ensures b == full || b == hint || b == title
    ensures full != "" ==> b == full
    ensures full == "" && hint != "" ==> b == hint
  {
    if full != "" then full else if hint != "" then hint else title
  }

  /** The history record of one item, or `None` when fetching or
      summarizing raises (the item is then neither seen nor recorded). */
  function Processed(svc: Services, it: Item, sentences: int, timeout: int, addedOn: string): (r: Option<Record>)
    ensures r.Some? ==>
              && r.value.id == Some(it.uid)
              && r.value.title == Some(it.title) && r.value.link == Some(it.link)
              && r.value.source == Some(it.source) && r.value.pubDate == Some(it.pubDate)
              && r.value.summary.Some? && r.value.summary.value != ""
              && r.value.addedOn == Some(addedOn)
    ensures it.title != "" ==>
              (r.None? <==> svc.fetchText(it.link, timeout).Raised?
                            || svc.summarize(BaseText(svc.fetchText(it.link, timeout).value, it.hint, it.title), sentences).Raised?)
  {
    match svc.fetchText(it.link, timeout)
    case Raised => None
    case Returned(full) =>
      var base := BaseText(full, it.hint, it.title);
      var summarized := if base != "" then svc.summarize(base, sentences) else Returned("");
      match summarized
      case Raised => None
      case Returned(s) =>
        Some(Record(Some(it.uid), Some(it.title), Some(it.link), Some(it.source), Some(it.pubDate),
                    Some(if s != "" then s else Placeholder), Some(addedOn)))
  }

  function Process(svc: Services, sentences: int, timeout: int, addedOn: string): Item -> Option<Record> {
    it => Processed(svc, it, sentences, timeout, addedOn)
  }

  /** The records the second loop appends to the history, in item order. */
  function Enriched(svc: Services, items: seq<Item>, sentences: int, timeout: int, addedOn: string): seq<Record> {
    FilterMap(Process(svc, sentences, timeout, addedOn), items)
  }

  /** The ids of a list of records. */
  function IdSet(rs: seq<Record>): set<string> {
    set i | 0 <= i < |rs| && rs[i].id.Some? :: rs[i].id.value
  }

  /** The second loop of `main`: `seen.add(uid)` and `history.append(...)`
      for every item processed without an exception. */
  method Enrich(svc: Services, items: seq<Item>, sentences: int, timeout: int, addedOn: string,
                seen: set<string>, history: seq<Entry>)
    returns (seen': set<string>, history': seq<Entry>)
    ensures seen' == seen + IdSet(Enriched(svc, items, sentences, timeout, addedOn))
    ensures history' == history + AsEntries(Enriched(svc, items, sentences, timeout, addedOn))
  {
    var process := Process(svc, sentences, timeout, addedOn);
    seen', history' := seen, history;
    for i := 0 to |items|
      invariant seen' == seen + IdSet(FilterMap(process, items[..i]))
      invariant history' == history + AsEntries(FilterMap(process, items[..i]))
    {
      FilterMapStep(process, items, i);
      var r := process(items[i]);
      ghost var done := FilterMap(process, items[..i]);
      if r.Some? {
        ProcessedId(svc, items[i], sentences, timeout, addedOn);
        IdSetSnoc(done, r.value);
        AsEntriesSnoc(done, r.value);
        assert FilterMap(process, items[..i + 1]) == done + [r.value];
        assert r.value.id.value == items[i].uid;
        seen' := seen' + {items[i].uid};
        history' := history' + [Dict(r.value)];
      } else {
        assert FilterMap(process, items[..i + 1]) == done;
      }
    }
    assert items[..|items|] == items;
  }

  lemma ProcessedId(svc: Services, it: Item, sentences: int, timeout: int, addedOn: string)
    ensures Process(svc, sentences, timeout, addedOn)(it).Some? ==>
              Process(svc, sentences, timeout, addedOn)(it).value.id == Some(it.uid)
  {
  }

  lemma IdSetSnoc(rs: seq<Record>, r: Record)
    requires r.id.Some?
    ensures IdSet(rs + [r]) == IdSet(rs) + {r.id.value}
  {
    var s := rs + [r];
    assert s[|rs|] == r;
    forall x | x in IdSet(s) ensures x in IdSet(rs) + {r.id.value} {
      var i :| 0 <= i < |s| && s[i].id.Some? && s[i].id.value == x;
      if i < |rs| { assert s[i] == rs[i]; }
    }
    forall x | x in IdSet(rs) ensures x in IdSet(s) {
      var i :| 0 <= i < |rs| && rs[i].id.Some? && rs[i].id.value == x;
      assert s[i] == rs[i];
    }
  }

  lemma AsEntriesSnoc(rs: seq<Record>, r: Record)
    ensures AsEntries(rs + [r]) == AsEntries(rs) + [Dict(r)]
  {
  }

  // ---------------------------------------------------------------------------
  // Properties

  /** Every output of `FilterMap` is the value `f` gives some element. */
  lemma {:induction false} FilterMapSound<A, B>(f: A -> Option<B>, s: seq<A>)
    ensures forall k :: 0 <= k < |FilterMap(f, s)| ==> exists i :: 0 <= i < |s| && f(s[i]) == Some(FilterMap(f, s)[k])
  {
    if s != [] {
      var n := |s| - 1;
      FilterMapSound(f, s[..n]);
      var r := FilterMap(f, s);
      var p := FilterMap(f, s[..n]);
      var tail := match f(s[n]) case Some(y) => [y] case None => [];
      assert r == p + tail;
      forall k | 0 <= k < |r| ensures exists i :: 0 <= i < |s| && f(s[i]) == Some(r[k]) {
        if k < |p| {
          assert r[k] == p[k];
          var i :| 0 <= i < n && f(s[..n][i]) == Some(p[k]);
          assert s[..n][i] == s[i];
        } else {
          assert f(s[n]) == Some(r[k]);
        }
      }
    } else {
      assert |FilterMap(f, s)| == 0;
    }
  }

  /** Every value `f` gives an element is among the outputs of `FilterMap`. */
  lemma {:induction false} FilterMapComplete<A, B>(f: A -> Option<B>, s: seq<A>)
    ensures forall i :: 0 <= i < |s| && f(s[i]).Some? ==> f(s[i]).value in FilterMap(f, s)
  {
    if s != [] {
      var n := |s| - 1;
      FilterMapComplete(f, s[..n]);
      forall i | 0 <= i < |s| && f(s[i]).Some? ensures f(s[i]).value in FilterMap(f, s) {
        if i < n {
          assert s[..n][i] == s[i];
        }
      }
    }
  }

  /** `FilterMap` keeps the order of its input: it distributes over `+`. */
  lemma {:induction false} FilterMapConcat<A, B>(f: A -> Option<B>, a: seq<A>, b: seq<A>)
    ensures FilterMap(f, a + b) == FilterMap(f, a) + FilterMap(f, b)
    decreases |b|
  {
    if b == [] {
      assert a + b == a;
    } else {
      var n := |b| - 1;
      assert (a + b)[..|a| + n] == a + b[..n];
      assert (a + b)[|a| + n] == b[n];
      FilterMapConcat(f, a, b[..n]);
    }
  }

  /** What every item of the first loop satisfies. */
  ghost predicate GoodItem(svc: Services, forceAll: bool, seen: set<string>, it: Item) {
    && it.link != ""
    && it.uid == svc.hashId(it.link)
    && (forceAll || it.uid !in seen)
    && it.title != ""
    && it.source == svc.domainOf(it.link)
  }

  /** Every item has a link and a title, its uid is the hash of its link, and
      it was not seen before unless every entry is reprocessed. */
  lemma CandidatesGood(svc: Services, feeds: seq<string>, maxPerFeed: int,
                       forceAll: bool, seen: set<string>)
    ensures forall it :: it in Candidates(svc, feeds, maxPerFeed, forceAll, seen) ==> GoodItem(svc, forceAll, seen, it)
  {
    var g := FeedItemsOf(svc, maxPerFeed, forceAll, seen);
    forall k | 0 <= k < |feeds| ensures forall x :: x in g(feeds[k]) ==> GoodItem(svc, forceAll, seen, x) {
      FeedItemsGood(svc, feeds[k], maxPerFeed, forceAll, seen);
    }
    ConcatMapAll(g, feeds, it => GoodItem(svc, forceAll, seen, it));
  }

  /** What holds of the outputs for every element holds of `ConcatMap`'s. */
  lemma {:induction false} ConcatMapAll<A, B>(g: A -> seq<B>, s: seq<A>, P: B -> bool)
    requires forall k :: 0 <= k < |s| ==> forall x :: x in g(s[k]) ==> P(x)
    ensures forall x :: x in ConcatMap(g, s) ==> P(x)
  {
    if s != [] {
      var n := |s| - 1;
      assert ConcatMap(g, s) == ConcatMap(g, s[..n]) + g(s[n]);
      forall k | 0 <= k < n ensures forall x :: x in g(s[..n][k]) ==> P(x) {
        assert s[..n][k] == s[k];
      }
      ConcatMapAll(g, s[..n], P);
    }
  }

  lemma FeedItemsGood(svc: Services, url: string, maxPerFeed: int, forceAll: bool, seen: set<string>)
    ensures forall it :: it in FeedItems(svc, url, maxPerFeed, forceAll, seen) ==> GoodItem(svc, forceAll, seen, it)
  {
    var fp := svc.parseFeed(url);
    if !Skipped(fp) {
      var w := Window(fp.entries, maxPerFeed);
      var cand := Candidate(svc, forceAll, seen);
      FilterMapSound(cand, w);
      forall j | 0 <= j < |FilterMap(cand, w)| ensures GoodItem(svc, forceAll, seen, FilterMap(cand, w)[j]) {
        var i :| 0 <= i < |w| && cand(w[i]) == Some(FilterMap(cand, w)[j]);
        assert CandidateOf(svc, w[i], forceAll, seen) == Some(FilterMap(cand, w)[j]);
      }
    }
  }

  /** Conversely, every entry within the window of a feed that is not
      skipped, with a non-blank link and not seen before (or every entry
      reprocessed), yields its item. */
  lemma CandidatesComplete(svc: Services, feeds: seq<string>, maxPerFeed: int,
                           forceAll: bool, seen: set<string>, k: nat, e: FeedEntry)
    requires k < |feeds|
    requires !Skipped(svc.parseFeed(feeds[k]))
    requires e in Window(svc.parseFeed(feeds[k]).entries, maxPerFeed)
    requires CandidateOf(svc, e, forceAll, seen).Some?
    ensures CandidateOf(svc, e, forceAll, seen).value in Candidates(svc, feeds, maxPerFeed, forceAll, seen)
  {
    FeedItemsComplete(svc, feeds[k], maxPerFeed, forceAll, seen, e);
    var g := FeedItemsOf(svc, maxPerFeed, forceAll, seen);
    ConcatMapHas(g, feeds, k);
    assert g(feeds[k]) == FeedItems(svc, feeds[k], maxPerFeed, forceAll, seen);
  }

  lemma FeedItemsComplete(svc: Services, url: string, maxPerFeed: int, forceAll: bool,
                          seen: set<string>, e: FeedEntry)
    requires !Skipped(svc.parseFeed(url))
    requires e in Window(svc.parseFeed(url).entries, maxPerFeed)
    requires CandidateOf(svc, e, forceAll, seen).Some?
    ensures CandidateOf(svc, e, forceAll, seen).value in FeedItems(svc, url, maxPerFeed, forceAll, seen)
  {
    var w := Window(svc.parseFeed(url).entries, maxPerFeed);
    var cand := Candidate(svc, forceAll, seen);
    FilterMapComplete(cand, w);
    var i :| 0 <= i < |w| && w[i] == e;
    assert cand(w[i]) == CandidateOf(svc, e, forceAll, seen);
  }

  /** The outputs for every element are among the outputs of `ConcatMap`. */
  lemma {:induction false} ConcatMapHas<A, B>(g: A -> seq<B>, s: seq<A>, k: nat)
    requires k < |s|
    ensures forall x :: x in g(s[k]) ==> x in ConcatMap(g, s)
  {
    var n := |s| - 1;
    assert ConcatMap(g, s) == ConcatMap(g, s[..n]) + g(s[n]);
    if k < n {
      assert s[..n][k] == s[k];
      ConcatMapHas(g, s[..n], k);
    }
  }

  /** The records appended carry a non-empty summary and the run's date; each
      is the record of one of the items, and its id is then in `seen`. */
  lemma EnrichedRecords(svc: Services, items: seq<Item>, sentences: int, timeout: int, addedOn: string)
    ensures forall k :: 0 <= k < |Enriched(svc, items, sentences, timeout, addedOn)| ==>
              var r := Enriched(svc, items, sentences, timeout, addedOn)[k];
              && r.summary.Some? && r.summary.value != ""
              && r.addedOn == Some(addedOn)
              && r.id.Some? && r.id.value in IdSet(Enriched(svc, items, sentences, timeout, addedOn))
              && exists i :: 0 <= i < |items| && r.id == Some(items[i].uid)
                             && Processed(svc, items[i], sentences, timeout, addedOn) == Some(r)
  {
    var process := Process(svc, sentences, timeout, addedOn);
    var rs := Enriched(svc, items, sentences, timeout, addedOn);
    FilterMapSound(process, items);
    forall k | 0 <= k < |rs|
      ensures && rs[k].summary.Some? && rs[k].summary.value != ""
              && rs[k].addedOn == Some(addedOn)
              && rs[k].id.Some? && rs[k].id.value in IdSet(rs)
              && exists i :: 0 <= i < |items| && rs[k].id == Some(items[i].uid)
                             && Processed(svc, items[i], sentences, timeout, addedOn) == Some(rs[k])
    {
      var i :| 0 <= i < |items| && process(items[i]) == Some(rs[k]);
      assert Processed(svc, items[i], sentences, timeout, addedOn) == Some(rs[k]);
    }
  }

  /** Every item processed without an exception is recorded, in item order. */
  lemma EnrichedComplete(svc: Services, items: seq<Item>, sentences: int, timeout: int, addedOn: string, i: nat)
    requires i < |items| && Processed(svc, items[i], sentences, timeout, addedOn).Some?
    ensures Processed(svc, items[i], sentences, timeout, addedOn).value in Enriched(svc, items, sentences, timeout, addedOn)
  {
    var process := Process(svc, sentences, timeout, addedOn);
    FilterMapComplete(process, items);
    assert process(items[i]) == Processed(svc, items[i], sentences, timeout, addedOn);
  }

  /** The summary is the summarizer's text of the first non-empty of the
      fetched text, the hint and the title, or the placeholder when that
      text is empty. */
  lemma ProcessedSummary(svc: Services, it: Item, sentences: int, timeout: int, addedOn: string)
    requires it.title != ""
    requires Processed(svc, it, sentences, timeout, addedOn).Some?
    ensures svc.fetchText(it.link, timeout).Returned?
    ensures var base := BaseText(svc.fetchText(it.link, timeout).value, it.hint, it.title);
            && base != ""
            && svc.summarize(base, sentences).Returned?
            && var s := svc.summarize(base, sentences).value;
               Processed(svc, it, sentences, timeout, addedOn).value.summary == Some(if s != "" then s else Placeholder)
  {
  }
}
