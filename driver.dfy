/**
 * `main`: read the settings, load the stored seen set and history, then
 * either rebuild the Markdown files from the stored history (render-only
 * mode) or collect the feeds' new articles, reconcile the history, save
 * both and rebuild the files from the reconciled history.
 *
 * The environment, the stored files and the clock are inputs; the files
 * written come back in the `Outcome`.
 */
module Driver {
  import opened Text
  import opened Records
  import opened Ordering
  import opened History
  import opened EnvList
  import opened Collect
  import opened Output

  /** The settings as `main` reads them. A number is `None` when `int()`
      raises on the setting's text (an unset setting reads as its default,
      "4", "20" and "20"); the other settings are raw texts, "" when unset. */
  datatype Config = Config(
    feeds: string,
    sentences: Option<int>,
    maxPerFeed: Option<int>,
    timeout: Option<int>,
    forceAll: string,
    renderOnly: string)

  /** A stored JSON file: absent, unreadable or not JSON, or its contents. */
  datatype Stored<T> = Missing | Unreadable | Loaded(value: T)

  /** What the history file holds when it is readable JSON: a list, or some
      other value. */
  datatype HistoryData = NotAList | AList(entries: seq<Entry>)

  /** What a run saves: the seen ids and the reconciled history. */
  datatype Saved = Saved(seen: set<string>, history: seq<Record>)

  datatype Outcome =
    | BadNumber        // `int()` raised on a numeric setting
    | NoFeeds          // no feed configured outside render-only mode: exit status 1
    | RenderCrash      // render-only mode on a history element that is not an object
    | Done(docs: map<string, string>, saved: Option<Saved>)

  /** `os.getenv(name, "").strip() == "1"` */
  predicate Flag(raw: string) {
    Strip(raw) == "1"
  }

  /** `load_seen`: the stored set, or the empty set. */
  function LoadSeen(f: Stored<set<string>>): (s: set<string>)
    ensures f.Loaded? ==> s == f.value
    ensures !f.Loaded? ==> s == {}
  {
    if f.Loaded? then f.value else {}
  }

  /** `load_history`: the stored list, or the empty list. */
  function LoadHistory(f: Stored<HistoryData>): (h: seq<Entry>)
    ensures f.Loaded? && f.value.AList? ==> h == f.value.entries
    ensures !(f.Loaded? && f.value.AList?) ==> h == []
  {
    if f.Loaded? && f.value.AList? then f.value.entries else []
  }

  /** The seen file `save_seen` leaves: the ids as one JSON list, which
      `set(json.load(f))` turns back into the set. */
  function SeenFile(seen: set<string>): Stored<set<string>> {
    Loaded(seen)
  }

  /** The history file `save_history` leaves: the records as a JSON list of
      objects. */
  function HistoryFile(history: seq<Record>): Stored<HistoryData> {
    Loaded(AList(AsEntries(history)))
  }

  /** Loading what a run saved gives back the saved seen set and, element by
      element, the saved records. */
  lemma SaveLoadRoundTrip(saved: Saved)
    ensures LoadSeen(SeenFile(saved.seen)) == saved.seen
    ensures var h := LoadHistory(HistoryFile(saved.history));
            AllDicts(h) && RecordsOf(h) == saved.history
  {
    RecordsOfEntries(saved.history);
  }

  /** Every element of the history is an object. */
  predicate AllDicts(h: seq<Entry>) {
    forall i :: 0 <= i < |h| ==> h[i].Dict?
  }

  /** The records of a history of objects. */
  function RecordsOf(h: seq<Entry>): (rs: seq<Record>)
    requires AllDicts(h)
    ensures AsEntries(rs) == h
  {
    seq(|h|, i requires 0 <= i < |h| => h[i].rec)
  }

  /** The outcome of render-only mode. */
  function RenderOnlyOutcome(history: seq<Entry>, today: string): Outcome {
    if AllDicts(history) then Done(Documents(RecordsOf(history), today), None) else RenderCrash
  }

  /** The outcome of a collecting run over at least one feed. */
  function CollectOutcome(svc: Services, feeds: seq<string>, sentences: int, maxPerFeed: int, timeout: int,
                          forceAll: bool, seen: set<string>, history: seq<Entry>,
                          today: string, addedOn: string): Outcome
  {
    var items := Candidates(svc, feeds, maxPerFeed, forceAll, seen);
    var added := Enriched(svc, items, sentences, timeout, addedOn);
    var hist := Normalize(history + AsEntries(added));
    Done(Documents(hist, today), Some(Saved(seen + IdSet(added), hist)))
  }

  /** The settings once read: the feed list, the three numbers and the two
      flags. */
  datatype Settings = Settings(
    feeds: seq<string>,
    sentences: Option<int>,
    maxPerFeed: Option<int>,
    timeout: Option<int>,
    forceAll: bool,
    renderOnly: bool)

  function ReadSettings(cfg: Config): Settings {
    Settings(EnvList.EnvList(cfg.feeds), cfg.sentences, cfg.maxPerFeed, cfg.timeout,
             Flag(cfg.forceAll), Flag(cfg.renderOnly))
  }

  /** No `int()` raised. */
  predicate NumbersRead(s: Settings) {
    s.sentences.Some? && s.maxPerFeed.Some? && s.timeout.Some?
  }

  /** What a run of `main` does once its settings are read. */
  function RunWith(s: Settings, svc: Services, seenFile: Stored<set<string>>, historyFile: Stored<HistoryData>,
                   today: string, addedOn: string): Outcome
  {
    if !NumbersRead(s) then BadNumber
    else if s.renderOnly then RenderOnlyOutcome(LoadHistory(historyFile), today)
    else if s.feeds == [] then NoFeeds
    else
      CollectOutcome(svc, s.feeds, s.sentences.value, s.maxPerFeed.value, s.timeout.value, s.forceAll,
                     LoadSeen(seenFile), LoadHistory(historyFile), today, addedOn)
  }

  /** What a run of `main` does. */
  function Run(cfg: Config, svc: Services, seenFile: Stored<set<string>>, historyFile: Stored<HistoryData>,
               today: string, addedOn: string): Outcome
  {
    RunWith(ReadSettings(cfg), svc, seenFile, historyFile, today, addedOn)
  }

  /** The body of `main`. */
  method Execute(cfg: Config, svc: Services, seenFile: Stored<set<string>>, historyFile: Stored<HistoryData>,
                 today: string, addedOn: string) returns (outcome: Outcome)
    ensures outcome == Run(cfg, svc, seenFile, historyFile, today, addedOn)
  {
    var feeds := GetEnvList(cfg.feeds);
    var settings := Settings(feeds, cfg.sentences, cfg.maxPerFeed, cfg.timeout,
                             Flag(cfg.forceAll), Flag(cfg.renderOnly));
    outcome := ExecuteWith(settings, svc, seenFile, historyFile, today, addedOn);
  }

  /** `main` once the settings are read. */
  method ExecuteWith(s: Settings, svc: Services, seenFile: Stored<set<string>>, historyFile: Stored<HistoryData>,
                     today: string, addedOn: string) returns (outcome: Outcome)
    ensures outcome == RunWith(s, svc, seenFile, historyFile, today, addedOn)
  {
    if s.sentences.None? || s.maxPerFeed.None? || s.timeout.None? {
      return BadNumber;
    }
    var seen := LoadSeen(seenFile);
    var history := LoadHistory(historyFile);
    if s.renderOnly {
      outcome := RenderOnly(history, today);
      return;
    }
    if |s.feeds| == 0 {
      return NoFeeds;
    }
    outcome := CollectAndRender(svc, s.feeds, s.sentences.value, s.maxPerFeed.value, s.timeout.value,
                                s.forceAll, seen, history, today, addedOn);
  }

  /** Render-only mode: `render_from_history` on the stored history, which
      fails on the first element that is not an object. */
  method RenderOnly(history: seq<Entry>, today: string) returns (outcome: Outcome)
    ensures outcome == RenderOnlyOutcome(history, today)
  {
    var i := 0;
    while i < |history| && history[i].Dict?
      invariant 0 <= i <= |history|
      invariant forall k :: 0 <= k < i ==> history[k].Dict?
    {
      i := i + 1;
    }
    if i < |history| {
      return RenderCrash;
    }
    var docs := RenderFromHistory(RecordsOf(history), today);
    return Done(docs, None);
  }

  /** The collecting run: both loops, the reconciliation, the rendering. */
  method CollectAndRender(svc: Services, feeds: seq<string>, sentences: int, maxPerFeed: int, timeout: int,
                          forceAll: bool, seen: set<string>, history: seq<Entry>,
                          today: string, addedOn: string) returns (outcome: Outcome)
    ensures outcome == CollectOutcome(svc, feeds, sentences, maxPerFeed, timeout, forceAll, seen, history, today, addedOn)
  {
    var items := CollectItems(svc, feeds, maxPerFeed, forceAll, seen);
    var seen', history' := Enrich(svc, items, sentences, timeout, addedOn, seen, history);
    var dedup := DedupHistory(history');
    var hist := SortDesc(dedup, HistoryKey);
    var docs := RenderFromHistory(hist, today);
    return Done(docs, Some(Saved(seen', hist)));
  }

  // ---------------------------------------------------------------------------
  // Properties of a run

  /** The history a run saves has unique ids and is sorted; the files are
      rendered from it; the seen set only grows; no stored entry's id is
      lost; and every id newly marked as seen is the id of a saved record. */
  lemma CollectSaves(svc: Services, feeds: seq<string>, sentences: int, maxPerFeed: int, timeout: int,
                     forceAll: bool, seen: set<string>, history: seq<Entry>, today: string, addedOn: string)
    requires HashNonEmpty(svc)
    ensures var out := CollectOutcome(svc, feeds, sentences, maxPerFeed, timeout, forceAll, seen, history, today, addedOn);
            && out.Done? && out.saved.Some?
            && UniqueIds(out.saved.value.history)
            && SortedDesc(out.saved.value.history, HistoryKey)
            && out.docs == Documents(out.saved.value.history, today)
            && seen <= out.saved.value.seen
            && (forall j :: 0 <= j < |history| && HasId(history[j]) ==>
                  exists i :: 0 <= i < |out.saved.value.history| && out.saved.value.history[i].id == Some(IdOf(history[j])))
            && (forall id :: id in out.saved.value.seen && id !in seen ==>
                  exists i :: 0 <= i < |out.saved.value.history| && out.saved.value.history[i].id == Some(id))
  {
    var items := Candidates(svc, feeds, maxPerFeed, forceAll, seen);
    var added := Enriched(svc, items, sentences, timeout, addedOn);
    CandidatesGood(svc, feeds, maxPerFeed, forceAll, seen);
    AddedIdsNonEmpty(svc, items, sentences, timeout, addedOn, forceAll, seen);
    NormalizedHistory(history + AsEntries(added));
    ReconcileKeepsIds(history, added);
  }

  /** The records of items with uids have non-empty ids. */
  lemma AddedIdsNonEmpty(svc: Services, items: seq<Item>, sentences: int, timeout: int, addedOn: string,
                         forceAll: bool, seen: set<string>)
    requires HashNonEmpty(svc)
    requires forall it :: it in items ==> GoodItem(svc, forceAll, seen, it)
    ensures forall k :: 0 <= k < |Enriched(svc, items, sentences, timeout, addedOn)| ==>
              Enriched(svc, items, sentences, timeout, addedOn)[k].id.Some?
              && Enriched(svc, items, sentences, timeout, addedOn)[k].id.value != ""
  {
    var added := Enriched(svc, items, sentences, timeout, addedOn);
    EnrichedRecords(svc, items, sentences, timeout, addedOn);
    forall k | 0 <= k < |added| ensures added[k].id.Some? && added[k].id.value != "" {
      var m :| 0 <= m < |items| && added[k].id == Some(items[m].uid)
               && Processed(svc, items[m], sentences, timeout, addedOn) == Some(added[k]);
      assert items[m] in items;
      assert items[m].uid == svc.hashId(items[m].link);
    }
  }

  /** Reconciling the stored history with the records appended keeps the id
      of every stored entry that has one and of every record appended. */
  lemma ReconcileKeepsIds(history: seq<Entry>, added: seq<Record>)
    requires forall k :: 0 <= k < |added| ==> added[k].id.Some? && added[k].id.value != ""
    ensures var hist := Normalize(history + AsEntries(added));
            && (forall j :: 0 <= j < |history| && HasId(history[j]) ==>
                  exists i :: 0 <= i < |hist| && hist[i].id == Some(IdOf(history[j])))
            && (forall id :: id in IdSet(added) ==>
                  exists i :: 0 <= i < |hist| && hist[i].id == Some(id))
  {
    var all := history + AsEntries(added);
    var hist := Normalize(all);
    NormalizeKeepsIds(all);
    forall j | 0 <= j < |history| && HasId(history[j])
      ensures exists i :: 0 <= i < |hist| && hist[i].id == Some(IdOf(history[j]))
    {
      assert all[j] == history[j];
    }
    forall id | id in IdSet(added)
      ensures exists i :: 0 <= i < |hist| && hist[i].id == Some(id)
    {
      var k :| 0 <= k < |added| && added[k].id.Some? && added[k].id.value == id;
      assert all[|history| + k] == Dict(added[k]);
      assert HasId(all[|history| + k]);
    }
  }

  /** A run of `main` that saves: its saved history has unique ids and is
      sorted, the files are rendered from it, the seen set only grows, no
      stored entry's id is lost, and every id newly seen is in the history. */
  lemma RunSaves(s: Settings, svc: Services, seenFile: Stored<set<string>>, historyFile: Stored<HistoryData>,
                 today: string, addedOn: string)
    requires HashNonEmpty(svc)
    requires RunWith(s, svc, seenFile, historyFile, today, addedOn).Done?
    requires RunWith(s, svc, seenFile, historyFile, today, addedOn).saved.Some?
    ensures var out := RunWith(s, svc, seenFile, historyFile, today, addedOn);
            var saved := out.saved.value;
            var history := LoadHistory(historyFile);
            && UniqueIds(saved.history)
            && SortedDesc(saved.history, HistoryKey)
            && out.docs == Documents(saved.history, today)
            && LoadSeen(seenFile) <= saved.seen
            && (forall j :: 0 <= j < |history| && HasId(history[j]) ==>
                  exists i :: 0 <= i < |saved.history| && saved.history[i].id == Some(IdOf(history[j])))
            && (forall id :: id in saved.seen && id !in LoadSeen(seenFile) ==>
                  exists i :: 0 <= i < |saved.history| && saved.history[i].id == Some(id))
  {
    CollectSaves(svc, s.feeds, s.sentences.value, s.maxPerFeed.value, s.timeout.value, s.forceAll,
                 LoadSeen(seenFile), LoadHistory(historyFile), today, addedOn);
  }

  lemma RecordsOfEntries(rs: seq<Record>)
    ensures AllDicts(AsEntries(rs)) && RecordsOf(AsEntries(rs)) == rs
  {
  }

  /** Render-only mode rebuilds the files a run wrote from the history that
      run saved. */
  lemma ReplayRendersSame(s: Settings, svc: Services, seenFile: Stored<set<string>>, historyFile: Stored<HistoryData>,
                          today: string, addedOn: string,
                          s': Settings, svc': Services, seenFile': Stored<set<string>>, addedOn': string)
    requires RunWith(s, svc, seenFile, historyFile, today, addedOn).Done?
    requires RunWith(s, svc, seenFile, historyFile, today, addedOn).saved.Some?
    requires NumbersRead(s') && s'.renderOnly
    ensures var out := RunWith(s, svc, seenFile, historyFile, today, addedOn);
            RunWith(s', svc', seenFile', HistoryFile(out.saved.value.history), today, addedOn')
              == Done(out.docs, None)
  {
    var out := RunWith(s, svc, seenFile, historyFile, today, addedOn);
    RecordsOfEntries(out.saved.value.history);
  }

  /** A run that records nothing new, over the history a previous run saved,
      saves that history unchanged and rebuilds the same files. */
  lemma IdleRerunKeepsHistory(s: Settings, svc: Services, seenFile: Stored<set<string>>, historyFile: Stored<HistoryData>,
                              today: string, addedOn: string,
                              s': Settings, svc': Services, seenFile': Stored<set<string>>, addedOn': string)
    requires RunWith(s, svc, seenFile, historyFile, today, addedOn).Done?
    requires RunWith(s, svc, seenFile, historyFile, today, addedOn).saved.Some?
    requires NumbersRead(s') && !s'.renderOnly && s'.feeds != []
    requires Enriched(svc', Candidates(svc', s'.feeds, s'.maxPerFeed.value, s'.forceAll, LoadSeen(seenFile')),
                      s'.sentences.value, s'.timeout.value, addedOn') == []
    ensures var out := RunWith(s, svc, seenFile, historyFile, today, addedOn);
            var saved := out.saved.value;
            RunWith(s', svc', seenFile', HistoryFile(saved.history), today, addedOn')
              == Done(out.docs, Some(Saved(LoadSeen(seenFile'), saved.history)))
  {
    var items := Candidates(svc, s.feeds, s.maxPerFeed.value, s.forceAll, LoadSeen(seenFile));
    var added := Enriched(svc, items, s.sentences.value, s.timeout.value, addedOn);
    var h := LoadHistory(historyFile) + AsEntries(added);
    assert RunWith(s, svc, seenFile, historyFile, today, addedOn)
        == Done(Documents(Normalize(h), today), Some(Saved(LoadSeen(seenFile) + IdSet(added), Normalize(h))));
    IdleRun(s', svc', seenFile', h, today, addedOn');
  }

  /** A collecting run that records nothing new, over a reconciled history,
      saves that history and the seen set unchanged. */
  lemma IdleRun(s: Settings, svc: Services, seenFile: Stored<set<string>>, h: seq<Entry>,
                today: string, addedOn: string)
    requires NumbersRead(s) && !s.renderOnly && s.feeds != []
    requires Enriched(svc, Candidates(svc, s.feeds, s.maxPerFeed.value, s.forceAll, LoadSeen(seenFile)),
                      s.sentences.value, s.timeout.value, addedOn) == []
    ensures RunWith(s, svc, seenFile, HistoryFile(Normalize(h)), today, addedOn)
         == Done(Documents(Normalize(h), today), Some(Saved(LoadSeen(seenFile), Normalize(h))))
  {
    var saved := Normalize(h);
    var none: seq<Record> := [];
    var seen := LoadSeen(seenFile);
    assert LoadHistory(HistoryFile(saved)) == AsEntries(saved);
    assert AsEntries(saved) + AsEntries(none) == AsEntries(saved);
    NormalizeIdempotent(h);
    assert seen + IdSet(none) == seen;
    CollectOutcomeOf(svc, s.feeds, s.sentences.value, s.maxPerFeed.value, s.timeout.value, s.forceAll,
                     seen, AsEntries(saved), today, addedOn, none, saved);
    assert RunWith(s, svc, seenFile, HistoryFile(saved), today, addedOn)
        == CollectOutcome(svc, s.feeds, s.sentences.value, s.maxPerFeed.value, s.timeout.value, s.forceAll,
                          seen, AsEntries(saved), today, addedOn);
  }

  lemma CollectOutcomeOf(svc: Services, feeds: seq<string>, sentences: int, maxPerFeed: int, timeout: int,
                         forceAll: bool, seen: set<string>, history: seq<Entry>,
                         today: string, addedOn: string, added: seq<Record>, hist: seq<Record>)
    requires Enriched(svc, Candidates(svc, feeds, maxPerFeed, forceAll, seen), sentences, timeout, addedOn) == added
    requires Normalize(history + AsEntries(added)) == hist
    ensures CollectOutcome(svc, feeds, sentences, maxPerFeed, timeout, forceAll, seen, history, today, addedOn)
         == Done(Documents(hist, today), Some(Saved(seen + IdSet(added), hist)))
  {
  }

  /** A blank feed setting stops a collecting run with exit status 1. */
  lemma BlankFeedsStop(cfg: Config, svc: Services, seenFile: Stored<set<string>>, historyFile: Stored<HistoryData>,
                       today: string, addedOn: string)
    requires cfg.sentences.Some? && cfg.maxPerFeed.Some? && cfg.timeout.Some?
    requires !Flag(cfg.renderOnly) && AllSpace(cfg.feeds)
    ensures Run(cfg, svc, seenFile, historyFile, today, addedOn) == NoFeeds
  {
    EnvListBlank(cfg.feeds);
  }
}
