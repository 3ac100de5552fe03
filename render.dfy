/**
 * `render_markdown(day_iso, articles)`: the Markdown text of one day (or of
 * the whole history) — a header, then either the empty marker or one block
 * per article, in the order given.
 */
module Render {
  import opened Text
  import opened Records

  /** `f"# Résumés – {day_iso}\n\n"` (the dash is U+2013). */
  function Header(day: string): string {
    "# Résumés – " + day + "\n\n"
  }

  const NoArticles: string := "_Aucun article._\n"

  /** `f"*{meta}*"` */
  function Emph(s: string): string {
    "*" + s + "*"
  }

  /** The metadata line: the non-empty ones of "Source : s" and
      "Publication : p", joined by " | " and wrapped in `*`, or nothing. */
  function MetaLine(r: Record): string {
    var source := GetOr(r.source, "");
    var pub := GetOr(r.pubDate, "");
    var candidates := [if source != "" then "Source : " + source else "",
                       if pub != "" then "Publication : " + pub else ""];
    var meta := Join(NonEmpty(candidates), " | ");
    if meta != "" then Emph(meta) else ""
  }

  /** Each part of the metadata line appears exactly when its field is non-empty;
      with both fields empty the line is empty. */
  lemma MetaLineCases(r: Record)
    ensures GetOr(r.source, "") == "" && GetOr(r.pubDate, "") == "" ==> MetaLine(r) == ""
    ensures GetOr(r.source, "") != "" && GetOr(r.pubDate, "") == "" ==>
              MetaLine(r) == Emph("Source : " + GetOr(r.source, ""))
    ensures GetOr(r.source, "") == "" && GetOr(r.pubDate, "") != "" ==>
              MetaLine(r) == Emph("Publication : " + GetOr(r.pubDate, ""))
    ensures GetOr(r.source, "") != "" && GetOr(r.pubDate, "") != "" ==>
              MetaLine(r) == Emph("Source : " + GetOr(r.source, "") + " | " + "Publication : " + GetOr(r.pubDate, ""))
  {
    var source := GetOr(r.source, "");
    var pub := GetOr(r.pubDate, "");
    var a := if source != "" then "Source : " + source else "";
    var b := if pub != "" then "Publication : " + pub else "";
    JoinNonEmptyPair(a, b, " | ");
  }

  lemma JoinNonEmptyPair(a: string, b: string, sep: string)
    ensures a == "" && b == "" ==> Join(NonEmpty([a, b]), sep) == ""
    ensures a != "" && b == "" ==> Join(NonEmpty([a, b]), sep) == a
    ensures a == "" && b != "" ==> Join(NonEmpty([a, b]), sep) == b
    ensures a != "" && b != "" ==> Join(NonEmpty([a, b]), sep) == a + sep + b
  {
    assert [a, b][1..] == [b];
    assert [b][1..] == [];
    var tail := if b != "" then [b] else [];
    assert NonEmpty([b]) == tail + NonEmpty([]);
    assert tail + [] == tail;
    if a != "" && b != "" {
      assert NonEmpty([a, b]) == [a, b];
      assert Join([a, b], sep) == a + sep + Join([b], sep);
    }
  }

  /** `[p for p in ps if p]` */
  function NonEmpty(ps: seq<string>): (r: seq<string>)
    ensures forall k :: 0 <= k < |r| ==> r[k] != ""
  {
    if ps == [] then []
    else (if ps[0] != "" then [ps[0]] else []) + NonEmpty(ps[1..])
  }

  /** The block of one article: title (default "(Sans titre)") linking to its
      link, the metadata line, a blank line, the summary. */
  function EntryText(r: Record): string {
    "## [" + GetOr(r.title, Untitled) + "](" + GetOr(r.link, "") + ")  \n"
      + MetaLine(r) + "\n\n" + GetOr(r.summary, "") + "\n"
  }

  /** The blocks of all articles, in order. */
  function EntryTexts(arts: seq<Record>): (r: seq<string>)
    ensures |r| == |arts|
    ensures forall i :: 0 <= i < |arts| ==> r[i] == EntryText(arts[i])
  {
    Map(EntryText, arts)
  }

  /** `[f(x) for x in s]` */
  function Map<A, B>(f: A -> B, s: seq<A>): (r: seq<B>)
    ensures |r| == |s|
    ensures forall i :: 0 <= i < |s| ==> r[i] == f(s[i])
  {
    seq(|s|, i requires 0 <= i < |s| => f(s[i]))
  }

  lemma MapConcat<A, B>(f: A -> B, a: seq<A>, b: seq<A>)
    ensures Map(f, a + b) == Map(f, a) + Map(f, b)
  {
    var x := Map(f, a + b);
    var y := Map(f, a) + Map(f, b);
    assert |x| == |y|;
    forall k | 0 <= k < |x| ensures x[k] == y[k] {
      if k < |a| {
        assert (a + b)[k] == a[k];
      } else {
        assert (a + b)[k] == b[k - |a|];
      }
    }
  }

  /** What `render_markdown(day, arts)` returns. */
  function Markdown(day: string, arts: seq<Record>): string {
    if arts == [] then Header(day) + NoArticles
    else Join([Header(day)] + EntryTexts(arts), "\n")
  }

  /** The loop of `render_markdown`, appending one block per article to `parts`. */
  method RenderMarkdown(day: string, articles: seq<Record>) returns (text: string)
    ensures text == Markdown(day, articles)
  {
    var header := Header(day);
    if articles == [] {
      return header + NoArticles;
    }
    var parts := [header];
    for i := 0 to |articles|
      invariant parts == [header] + EntryTexts(articles[..i])
    {
      assert articles[..i + 1] == articles[..i] + [articles[i]];
      MapConcat(EntryText, articles[..i], [articles[i]]);
      parts := parts + [EntryText(articles[i])];
    }
    assert articles[..|articles|] == articles;
    text := Join(parts, "\n");
  }

  // ---------------------------------------------------------------------------
  // The shape of the text

  lemma {:induction false} JoinAfterHead(h: string, parts: seq<string>, sep: string)
    ensures Join([h] + parts, sep) == h + Prefixed(parts, sep)
    decreases |parts|
  {
    if parts == [] {
      assert [h] + parts == [h];
    } else {
      assert ([h] + parts)[1..] == parts;
      assert parts == [parts[0]] + parts[1..];
      JoinAfterHead(parts[0], parts[1..], sep);
    }
  }

  /** Each part preceded by `sep`, concatenated. */
  function Prefixed(parts: seq<string>, sep: string): string {
    if parts == [] then "" else sep + parts[0] + Prefixed(parts[1..], sep)
  }

  /** The rendered text is the header followed by the empty marker when there
      are no articles, and otherwise by the articles' blocks in input order,
      each after a newline. */
  lemma MarkdownShape(day: string, arts: seq<Record>)
    ensures arts == [] ==> Markdown(day, arts) == Header(day) + NoArticles
    ensures arts != [] ==> Markdown(day, arts) == Header(day) + Prefixed(EntryTexts(arts), "\n")
  {
    if arts != [] {
      JoinAfterHead(Header(day), EntryTexts(arts), "\n");
    }
  }

  lemma {:induction false} PrefixedConcat(a: seq<string>, b: seq<string>, sep: string)
    ensures Prefixed(a + b, sep) == Prefixed(a, sep) + Prefixed(b, sep)
  {
    if a == [] {
      assert a + b == b;
    } else {
      assert (a + b)[1..] == a[1..] + b;
      PrefixedConcat(a[1..], b, sep);
    }
  }

  lemma {:induction false} JoinSnoc(parts: seq<string>, x: string, sep: string)
    requires parts != []
    ensures Join(parts + [x], sep) == Join(parts, sep) + sep + x
    decreases |parts|
  {
    if |parts| == 1 {
      assert (parts + [x])[1..] == [x];
    } else {
      assert (parts + [x])[1..] == parts[1..] + [x];
      JoinSnoc(parts[1..], x, sep);
    }
  }

  /** One more article adds exactly its block at the end. */
  lemma MarkdownAppend(day: string, arts: seq<Record>, r: Record)
    requires arts != []
    ensures Markdown(day, arts + [r]) == Markdown(day, arts) + "\n" + EntryText(r)
  {
    var e := EntryText(r);
    MapConcat(EntryText, arts, [r]);
    assert [Header(day)] + EntryTexts(arts + [r]) == ([Header(day)] + EntryTexts(arts)) + [e];
    JoinSnoc([Header(day)] + EntryTexts(arts), e, "\n");
  }

  /** The text of a concatenation of non-empty article lists is the first text
      followed by the blocks of the second. */
  lemma MarkdownConcat(day: string, a: seq<Record>, b: seq<Record>)
    requires a != [] && b != []
    ensures Markdown(day, a + b) == Markdown(day, a) + Prefixed(EntryTexts(b), "\n")
  {
    MarkdownShape(day, a);
    MarkdownShape(day, a + b);
    MapConcat(EntryText, a, b);
    PrefixedConcat(EntryTexts(a), EntryTexts(b), "\n");
  }
}
