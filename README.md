# Google Alerts summarizer — a verified model of its reconciliation core

`google-alerts-summarizer/main.py` reads Google Alerts RSS feeds and summarises each new article. It keeps two files:

- a seen set of article ids;
- a history of article records.

From the history it rebuilds one Markdown file per publication day, plus `latest.md` (the most recent day) and `all_articles.md` (the whole history). This project models the deterministic core of that program and proves what it guarantees:

- **`get_env_list`**: how the configured feed list is split and cleaned.
- **The two collection loops of `main`**:
  - which feed entries become items;
  - which items become history records;
  - how uids are added to the seen set.
- **The reconciliation**:
  - the dict keyed by id, which keeps the first position and the last value of an id;
  - the stable sort by `(pub_date, added_on)`, descending.
- **`render_from_history`**:
  - grouping by day with the three-level fallback;
  - the per-day, latest and full documents;
  - the empty-history sentinels.
- **`render_markdown`**: the exact text it builds.
- **`main`**: the settings, the render-only mode, the missing-feeds exit, and the outcome of a whole run.

Everything outside the core becomes a parameter:

- **Services** (a `Collect.Services` value holding functions): the feed parser, `extract_original_url`, `domain_of`, `hash_id`, `html_to_text`, `fetch_text` and `summarize_text`. The last two may return `Raised` to model an exception.
- **Stored files**: the contents of `seen.json` and `all_articles.json` as they are read (`Driver.Stored`).
- **The clock**: the current date `today` and the run's `added_on` stamp.

The files written come back as a map from file name, relative to the output directory, to text.

Modules follow the program's structure:

| Module | File | Content |
|---|---|---|
| `Text` | `text.dfy` | `str.strip`, `split(",")`, `splitlines`, `join`, `replace("\\n", "\n")`, `<` on strings |
| `Seqs` | `seqs.dfy` | first index, distinct elements in first-occurrence order, reversal |
| `EnvList` | `envlist.dfy` | `get_env_list` |
| `Records` | `records.dfy` | the history record and a history list element |
| `Ordering` | `ordering.dfy` | the stable `sort(key=..., reverse=True)` on pairs of strings |
| `History` | `history.dfy` | the merge by id and the sort |
| `Render` | `render.dfy` | `render_markdown` |
| `Grouping` | `grouping.dfy` | `by_day` and the day keys |
| `Output` | `output.dfy` | the rest of `render_from_history` |
| `Collect` | `collect.dfy` | the two loops of `main` that collect and process items |
| `Driver` | `driver.dfy` | `main` |

Two behaviours of the code are easy to misread:

- **Failed items are dropped.** A fetch or summarisation failure leaves the item unseen and unrecorded: an exception from `fetch_text` or `summarize_text` skips `seen.add` and `history.append` (main.py:290-309). `Collect.Processed` returns `None` in that case.
- **Render-only mode does not reconcile.** It renders the stored history exactly as loaded: no dedup, no sort. It fails on an element that is not an object (main.py:235-236, 333-334). So "replay renders what a run that collects nothing renders" holds only for a history the program saved itself. `Driver.ReplayRendersSame` and `Driver.IdleRerunKeepsHistory` prove it for that case.

## Model

| member | source | states |
|---|---|---|
| Text.Strip | google-alerts-summarizer/main.py:48 | the result has no white space at either end, is empty exactly when the input is all white space, and an already stripped text is left as it is |
| Text.StripSlice | google-alerts-summarizer/main.py:48 | the result is the slice `s[a:b]`, and everything cut before `a` and after `b` is white space, so only the white space at the two ends is removed |
| Text.JoinSplitOn | google-alerts-summarizer/main.py:53 | joining the pieces of `split(c)` with `c` gives the text back |
| Text.SplitOnJoin | google-alerts-summarizer/main.py:53 | splitting a join of pieces free of `c` gives the pieces back |
| EnvList.GetEnvList | google-alerts-summarizer/main.py:47-54 | the loop returns exactly `EnvList(raw)`: the stripped, non-blank comma pieces of each line, line after line |
| EnvList.CollectPieces | google-alerts-summarizer/main.py:51-54 | accumulating `parts += ...` over the lines gives the pieces of all lines in order |
| EnvList.KeepNonBlank | google-alerts-summarizer/main.py:53 | every piece kept is non-empty and stripped, and there are no more of them than inputs |
| EnvList.KeepNonBlankOne | google-alerts-summarizer/main.py:53 | one piece gives its strip when that is not blank, and nothing otherwise |
| EnvList.KeepNonBlankConcat | google-alerts-summarizer/main.py:53 | filtering a concatenation gives the filtered parts in order, so with `KeepNonBlankOne` every non-blank piece is kept, in input order |
| EnvList.EnvListBlank | google-alerts-summarizer/main.py:48-50 | an empty or all-white-space value yields no item |
| EnvList.EnvListItemsClean | google-alerts-summarizer/main.py:47-54 | every item is non-empty, stripped, and holds neither a comma nor a line break |
| EnvList.ExpandJoin | google-alerts-summarizer/main.py:52 | expanding backslash-n in a join of escape-free items only turns a backslash-n separator into a line break |
| EnvList.EnvListOfJoin | google-alerts-summarizer/main.py:47-54 | a list of clean items written with commas, line breaks or backslash-n between them reads back as exactly that list |
| Ordering.KeyNotLess | google-alerts-summarizer/main.py:318 | the tuple order is total: not `a < b` means `a == b` or `b < a` |
| Ordering.SortDesc | google-alerts-summarizer/main.py:318 | the sorted list is a permutation of its input |
| Ordering.SortDescSorted | google-alerts-summarizer/main.py:318 | the sorted list is non-increasing by key |
| Ordering.SortDescStable | google-alerts-summarizer/main.py:318 | for every key, the elements with that key keep their input order, even with `reverse=True` |
| Ordering.SortDescOfSorted | google-alerts-summarizer/main.py:318 | sorting a non-increasing list changes nothing |
| Ordering.SortDescKeepsApart | google-alerts-summarizer/main.py:318 | if no two elements share a projection (such as the id), no two sorted elements do |
| History.ValidIds | google-alerts-summarizer/main.py:313-315 | every object with a non-empty id contributes its id, and no id listed is empty |
| History.ValidIdsSound | google-alerts-summarizer/main.py:313-315 | every listed id is the id of some object in the history that has one |
| History.ValidIdsConcat | google-alerts-summarizer/main.py:313-315 | the ids of a concatenation are the ids of each part, in history order |
| History.LastIndex | google-alerts-summarizer/main.py:315 | the position of the last object carrying the id, with none after it |
| History.DedupHistory | google-alerts-summarizer/main.py:312-316 | the dict loop returns exactly `Dedup(history)`: the ids in first-occurrence order, each with the record of its last occurrence |
| History.MirrorsSet | google-alerts-summarizer/main.py:314-315 | `dedup[id] = a` keeps the dict equal to that of the longer prefix: a new id goes at the end, a known id keeps its place and takes the new record |
| History.DedupKeepsLastAtFirst | google-alerts-summarizer/main.py:312-316 | ids are non-empty and unique, in the order of first occurrence, no well-formed entry's id is lost, and each kept record is the last object carrying its id |
| History.NormalizedHistory | google-alerts-summarizer/main.py:312-318 | the saved history has unique ids, is non-increasing by (pub_date, added_on), is a permutation of the dedup output with equal keys in dedup order, and keeps every well-formed entry's id |
| History.DedupOfUnique | google-alerts-summarizer/main.py:312-316 | a history with unique ids passes the dedup unchanged |
| History.NormalizeIdempotent | google-alerts-summarizer/main.py:312-318 | reconciling the saved history again gives the same history |
| Render.MetaLineCases | google-alerts-summarizer/main.py:208-211 | the metadata line for each of the four cases: empty, source only, publication only, both joined by " \| ", wrapped in `*` |
| Render.EntryTexts | google-alerts-summarizer/main.py:205-212 | one block per article, in order |
| Render.RenderMarkdown | google-alerts-summarizer/main.py:200-213 | the loop returns exactly `Markdown(day, articles)` |
| Render.MarkdownShape | google-alerts-summarizer/main.py:200-213 | no articles give the header and "_Aucun article._"; otherwise the header is followed by each article's block after a newline, in input order |
| Render.MarkdownAppend | google-alerts-summarizer/main.py:204-213 | one more article adds exactly its block at the end |
| Render.MarkdownConcat | google-alerts-summarizer/main.py:204-213 | the text of a concatenation is the first text followed by the blocks of the second list |
| Grouping.DayKey | google-alerts-summarizer/main.py:334-338 | the key is the stripped pub_date if it is an ISO day, else the first ten characters of the stripped added_on if they are one, else `today`; so every key is an ISO day when `today` is one |
| Grouping.GroupByDay | google-alerts-summarizer/main.py:332-339 | the loop returns the defaultdict's key order (first use) and every bucket: the records of that key, in history order |
| Grouping.BucketKeys | google-alerts-summarizer/main.py:339 | every record in the bucket of `d` has key `d` |
| Grouping.BucketCounts | google-alerts-summarizer/main.py:332-339 | the bucket of a record's key holds it as often as the history does |
| Grouping.BucketNonEmpty | google-alerts-summarizer/main.py:332-341 | a day is a key of `by_day` exactly when its bucket is not empty |
| Grouping.BucketConcat | google-alerts-summarizer/main.py:333-339 | buckets keep history order: the bucket of a concatenation is the concatenation of the buckets |
| Grouping.ConcatPermutation | google-alerts-summarizer/main.py:365-367 | concatenating the buckets of distinct keys that cover every record gives a permutation of the history |
| Grouping.KeysDescFacts | google-alerts-summarizer/main.py:366 | the keys in descending order are exactly the keys of `by_day`, each once, strictly decreasing |
| Grouping.FlatPermutation | google-alerts-summarizer/main.py:365-367 | `flat` is a permutation of the history |
| Output.MaxOf | google-alerts-summarizer/main.py:359 | `max` returns an element of the list |
| Output.MaxOfIsMax | google-alerts-summarizer/main.py:359 | no element exceeds the maximum |
| Output.LatestFacts | google-alerts-summarizer/main.py:351-359 | the latest day is a key, every other key is smaller, and it heads the descending order |
| Output.RenderFromHistory | google-alerts-summarizer/main.py:327-369 | the method writes exactly `Documents(history, today)` |
| Output.RenderGrouped | google-alerts-summarizer/main.py:341-369 | after the grouping: the sentinels when there is no bucket, otherwise the day files, `latest.md` and `all_articles.md` |
| Output.RenderDays | google-alerts-summarizer/main.py:351-356 | the loop writes one file per day in ascending order, each the rendering of that day's bucket |
| Output.Flatten | google-alerts-summarizer/main.py:365-367 | `flat.extend(by_day[d])` in descending day order gives `Flat(history)` |
| Output.DayDocsContents | google-alerts-summarizer/main.py:351-356 | each day listed has its file holding the rendering of its bucket, and every file is one of theirs |
| Output.DayDocsOfKeys | google-alerts-summarizer/main.py:351-356 | the day files are exactly those of the keys of `by_day`, each holding the rendering of its bucket |
| Output.DocumentsEmpty | google-alerts-summarizer/main.py:341-347 | an empty history writes only the two sentinels; the latest one is the rendering of "(vide)" with no article |
| Output.DocumentsByFiles | google-alerts-summarizer/main.py:341-369 | the files are the day files plus the two fixed ones; `latest.md` renders the latest day's bucket and `all_articles.md` renders `flat` under the latest day's header |
| Output.LatestIsPrefixOfAll | google-alerts-summarizer/main.py:359-369 | `all_articles.md` begins with the text of `latest.md` |
| Output.DayFilesApart | google-alerts-summarizer/main.py:334-338 | with `today` an ISO day, no day file is named `latest.md` or `all_articles.md` |
| Output.DocumentsNonEmpty | google-alerts-summarizer/main.py:341-369 | for a non-empty history: one file per day and no other day file; the latest and full documents as above; `flat` is a permutation of the history; and latest is a prefix of all |
| Collect.HintHtml | google-alerts-summarizer/main.py:258-266 | the hint is the first non-empty of summary, summary detail and first content, and is empty only when all three are |
| Collect.HtmlToText | google-alerts-summarizer/main.py:84-86 | empty HTML gives empty text |
| Collect.Target | google-alerts-summarizer/main.py:255-277 | `orig or link` is the original URL when that is non-empty and the link otherwise, so it is never empty |
| Collect.Window | google-alerts-summarizer/main.py:250 | `entries[:max_per_feed]` is a prefix with its length, for negative values too |
| Collect.CandidateOf | google-alerts-summarizer/main.py:251-281 | an entry yields no item exactly when its stripped link is empty or its uid was seen and force-all is off; otherwise every field of the item |
| Collect.CollectItems | google-alerts-summarizer/main.py:243-281 | the first loop returns exactly `Candidates`: the items of each feed not skipped, feed after feed |
| Collect.FeedEntryItems | google-alerts-summarizer/main.py:250-281 | the inner loop keeps the items of the entries, in order |
| Collect.CandidatesGood | google-alerts-summarizer/main.py:250-281 | every item has a link and a title, its uid is the hash of its link, and it was not seen before unless force-all is on |
| Collect.CandidatesComplete | google-alerts-summarizer/main.py:244-281 | every entry in the window of a feed not skipped that yields an item has that item in the list |
| Collect.BaseText | google-alerts-summarizer/main.py:292 | `full or hint or title` is the first non-empty of the three, and is empty only when all three are |
| Collect.Processed | google-alerts-summarizer/main.py:286-309 | the record carries the item's uid, fields, a non-empty summary and the run's date; for a titled item, no record exactly when fetching or summarising raises |
| Collect.ProcessedSummary | google-alerts-summarizer/main.py:291-295 | the summary is the summarizer's text of the first non-empty of fetched text, hint and title, or the placeholder when that text is empty |
| Collect.Enrich | google-alerts-summarizer/main.py:286-309 | the second loop adds the ids of exactly the records produced to `seen` and appends exactly those records to the history, in item order |
| Collect.EnrichedRecords | google-alerts-summarizer/main.py:297-306 | each appended record has a non-empty summary and the run's date, and its id is marked seen and is the uid of the item it comes from |
| Collect.EnrichedComplete | google-alerts-summarizer/main.py:286-309 | every item processed without an exception is recorded |
| Driver.SaveLoadRoundTrip | google-alerts-summarizer/main.py:144-175 | loading the files `save_seen` and `save_history` wrote gives back the saved seen set and the saved records, each element an object |
| Driver.RecordsOf | google-alerts-summarizer/main.py:333 | a history of objects is the list of their records |
| Driver.Execute | google-alerts-summarizer/main.py:216-240 | the body of `main` yields exactly `Run(cfg, ...)` |
| Driver.ExecuteWith | google-alerts-summarizer/main.py:218-240 | once the settings are read: a bad number, then render-only, then missing feeds, then the collecting run |
| Driver.RenderOnly | google-alerts-summarizer/main.py:235-236 | render-only mode crashes on a non-object element and otherwise renders the stored history as it is |
| Driver.CollectAndRender | google-alerts-summarizer/main.py:243-324 | both loops, the reconciliation and the rendering yield exactly `CollectOutcome` |
| Driver.CollectSaves | google-alerts-summarizer/main.py:296-324 | the saved history has unique ids and is sorted; the files are rendered from it; the seen set only grows; no stored id is lost; every newly seen id is in the history |
| Driver.ReconcileKeepsIds | google-alerts-summarizer/main.py:312-318 | the ids of the stored entries and of the records appended all survive the reconciliation |
| Driver.RunSaves | google-alerts-summarizer/main.py:216-324 | the properties of `CollectSaves` for any run of `main` that saves |
| Driver.ReplayRendersSame | google-alerts-summarizer/main.py:235-236 | render-only mode over the history a run saved rebuilds exactly the files that run wrote |
| Driver.IdleRerunKeepsHistory | google-alerts-summarizer/main.py:312-324 | a run that records nothing new, over the history a previous run saved, saves it unchanged and rebuilds the same files |
| Driver.IdleRun | google-alerts-summarizer/main.py:286-324 | a run that records nothing new over a reconciled history saves that history and the seen set unchanged |
| Driver.BlankFeedsStop | google-alerts-summarizer/main.py:238-240 | a blank feed setting stops a collecting run with exit status 1 |

## Left out

- **Network, feeds, HTML and summarisation.** `feedparser.parse`, `fetch_text`, `html_to_text` and `summarize_text` use foreign libraries and the network, so they are functions in `Collect.Services`. An exception becomes a `Raised` result. Summarisation internals and the NLTK bootstrap are not modelled.
- **Hashing and URL parsing.** `hash_id`, `extract_original_url` and `domain_of` are uninterpreted functions.
  - The facts about saved ids (`Driver.CollectSaves`, `Driver.RunSaves`) assume `hash_id` never returns an empty text, through `Collect.HashNonEmpty`. A SHA-1 hex prefix of ten characters satisfies this.
- **Dates and the clock.**
  - `parse_pub_date` is a field of each feed entry (`Collect.FeedEntry.pubDate`).
  - `dt_to_iso(datetime.now())` is the single parameter `addedOn`, one value for the whole run.
  - `datetime.now(...).date().isoformat()` in the grouping is the parameter `today`. The code reads the clock again for each record that falls back to it (main.py:338); the model uses one `today` for the whole rendering, so it does not capture a date change during rendering.
- **Files.**
  - JSON reading, writing and its failures are outside the model. A stored file is missing, unreadable, or its contents.
  - Driver.SaveLoadRoundTrip: the round trip of `json.dump` and `json.load` is assumed by the file model, not proved. `SeenFile` and `HistoryFile` are the loaded values themselves, so the lemma holds by construction.
  - `save_seen` writes a sorted list; the model keeps the set.
  - Saving never fails in the model. The source ignores save errors, and the outcome does not depend on them.
  - `os.makedirs` is not modelled.
- **JSON values that are not strings.** Record fields are strings or absent. An id, date or title of another JSON type (a number, `null`) is not represented. Render-only mode's crash on such values, and `f"{...}"` of non-strings, are not modelled.
- **Settings.**
  - Reading the environment and `int()` parsing are outside the model. `Driver.Config` gives each number as parsed, or as `None` when `int()` raises.
  - `OUTPUT_DIR` only prefixes file names; the documents are keyed by names relative to it.
  - Logging, `print` and the process exit are replaced by the `Driver.Outcome` value.
- **Regular expressions.** `\d` is read as an ASCII digit. Python also accepts other Unicode decimal digits.
- **Character classes.** The white space of `str.strip` and the line breaks of `str.splitlines` are the code points Python uses, written out. There is no normalisation or case folding.
- **Duplicate uids in one run.** Two entries of the same run with the same uid are both processed, as in the source. The dedup then keeps the later record at the earlier one's place. The model shows this behaviour but proves nothing about it beyond what holds for any history.
