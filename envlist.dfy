/**
 * `get_env_list`: a configuration value holding a list of feed URLs,
 * separated by commas, by real line breaks, or by the two characters
 * backslash and n (as they arrive from a one-line environment setting).
 */
module EnvList {
  import opened Text
  import opened Seqs

  /** The stripped, non-blank pieces of `ps`, in order
      (`[p.strip() for p in ps if p.strip()]`). */
  function KeepNonBlank(ps: seq<string>): (r: seq<string>)
    ensures forall k :: 0 <= k < |r| ==> r[k] != "" && IsStripped(r[k])
    ensures |r| <= |ps|
  {
    if ps == [] then []
    else
      var p := Strip(ps[0]);
      (if p != "" then [p] else []) + KeepNonBlank(ps[1..])
  }

  /** Filtering a concatenation filters each part, keeping the order. */
  lemma {:induction false} KeepNonBlankConcat(a: seq<string>, b: seq<string>)
    ensures KeepNonBlank(a + b) == KeepNonBlank(a) + KeepNonBlank(b)
  {
    if a == [] {
      assert a + b == b;
    } else {
      assert (a + b)[1..] == a[1..] + b;
      KeepNonBlankConcat(a[1..], b);
    }
  }

  /** One piece is kept, stripped, exactly when its strip is not blank. */
  lemma KeepNonBlankOne(p: string)
    ensures KeepNonBlank([p]) == if Strip(p) != "" then [Strip(p)] else []
  {
    assert [p][1..] == [];
  }

  /** The list items one line contributes. */
  function LinePieces(line: string): seq<string>
  {
    KeepNonBlank(SplitOn(line, ','))
  }

  /** The items of the lines, line after line. */
  function LinesPieces(lines: seq<string>): seq<string>
  {
    if lines == [] then []
    else LinesPieces(lines[..|lines| - 1]) + LinePieces(lines[|lines| - 1])
  }

  /** The lines of a configuration value once escapes are expanded. */
  function ConfigLines(raw: string): seq<string>
  {
    SplitLines(ExpandNewlineEscapes(Strip(raw)))
  }

  /** What `get_env_list` returns for the value `raw` of the setting
      (an unset setting reads as ""). */
  function EnvList(raw: string): seq<string>
  {
    if Strip(raw) == "" then [] else LinesPieces(ConfigLines(raw))
  }

  /** `get_env_list`: strips the value, expands the escapes, splits it into
      lines and collects each line's pieces. */
  method GetEnvList(raw: string) returns (parts: seq<string>)
    ensures parts == EnvList(raw)
  {
    var stripped := Strip(raw);
    if stripped == "" {
      return [];
    }
    var lines := SplitLines(ExpandNewlineEscapes(stripped));
    assert lines == ConfigLines(raw);
    parts := CollectPieces(lines);
  }

  /** The loop of `get_env_list` that accumulates the pieces line by line. */
  method CollectPieces(lines: seq<string>) returns (parts: seq<string>)
    ensures parts == LinesPieces(lines)
  {
    parts := [];
    for i := 0 to |lines|
      invariant parts == LinesPieces(lines[..i])
    {
      LinesPiecesSnoc(lines, i);
      parts := parts + LinePieces(lines[i]);
    }
    assert lines[..|lines|] == lines;
  }

  lemma LinesPiecesSnoc(lines: seq<string>, i: nat)
    requires i < |lines|
    ensures LinesPieces(lines[..i + 1]) == LinesPieces(lines[..i]) + LinePieces(lines[i])
  {
    assert lines[..i + 1][..i] == lines[..i];
  }

  // ---------------------------------------------------------------------------
  // Properties

  /** One item as it can stand in a configuration value. */
  predicate CleanItem(p: string) {
    && p != ""
    && IsStripped(p)
    && ',' !in p
    && NoLineBreak(p)
    && NoEscape(p)
  }

  lemma {:induction false} KeepNonBlankElements(ps: seq<string>, c: char)
    requires forall k :: 0 <= k < |ps| ==> c !in ps[k]
    ensures forall k :: 0 <= k < |KeepNonBlank(ps)| ==> c !in KeepNonBlank(ps)[k]
  {
    if ps != [] {
      KeepNonBlankElements(ps[1..], c);
      StripKeepsAbsent(ps[0], c);
    }
  }

  lemma {:induction false} KeepNonBlankNoBreak(ps: seq<string>)
    requires forall k :: 0 <= k < |ps| ==> NoLineBreak(ps[k])
    ensures forall k :: 0 <= k < |KeepNonBlank(ps)| ==> NoLineBreak(KeepNonBlank(ps)[k])
  {
    if ps != [] {
      KeepNonBlankNoBreak(ps[1..]);
      StripKeepsChars(ps[0]);
    }
  }

  lemma StripKeepsAbsent(s: string, c: char)
    requires c !in s
    ensures c !in Strip(s)
  {
    var a, b := StripSlice(s);
    var r := Strip(s);
    forall k | 0 <= k < |r| ensures r[k] != c {
      assert r[k] == s[a + k];
    }
  }

  lemma StripKeepsChars(s: string)
    requires NoLineBreak(s)
    ensures NoLineBreak(Strip(s))
  {
    var a, b := StripSlice(s);
    var r := Strip(s);
    forall k | 0 <= k < |r| ensures !IsLineBreak(r[k]) {
      assert r[k] == s[a + k];
    }
  }

  /** Every item `get_env_list` returns is non-empty, already stripped, and
      holds neither a comma nor a line break. */
  lemma {:induction false} EnvListItemsClean(raw: string)
    ensures forall k :: 0 <= k < |EnvList(raw)| ==>
              && EnvList(raw)[k] != "" && IsStripped(EnvList(raw)[k])
              && ',' !in EnvList(raw)[k] && NoLineBreak(EnvList(raw)[k])
  {
    if Strip(raw) != "" {
      LinesPiecesClean(ConfigLines(raw));
    }
  }

  lemma {:induction false} LinesPiecesClean(lines: seq<string>)
    requires forall k :: 0 <= k < |lines| ==> NoLineBreak(lines[k])
    ensures forall k :: 0 <= k < |LinesPieces(lines)| ==>
              && LinesPieces(lines)[k] != "" && IsStripped(LinesPieces(lines)[k])
              && ',' !in LinesPieces(lines)[k] && NoLineBreak(LinesPieces(lines)[k])
  {
    if lines != [] {
      var last := lines[|lines| - 1];
      var init := lines[..|lines| - 1];
      assert forall k :: 0 <= k < |init| ==> init[k] == lines[k];
      LinesPiecesClean(init);
      assert LinesPieces(lines) == LinesPieces(init) + LinePieces(last);
      var pieces := SplitOn(last, ',');
      KeepNonBlankElements(pieces, ',');
      assert forall k :: 0 <= k < |pieces| ==> NoLineBreak(pieces[k]) by {
        JoinSplitOn(last, ',');
        forall k | 0 <= k < |pieces| ensures NoLineBreak(pieces[k]) {
          forall j | 0 <= j < |pieces[k]| ensures !IsLineBreak(pieces[k][j]) {
            JoinChar(pieces, [','], k, j);
          }
        }
      }
      KeepNonBlankNoBreak(pieces);
    }
  }

  /** A character of a piece is a character of the join. */
  lemma {:induction false} JoinChar(parts: seq<string>, sep: string, k: nat, j: nat)
    requires k < |parts| && j < |parts[k]|
    ensures parts[k][j] in Join(parts, sep)
  {
    if |parts| > 1 {
      if k == 0 {
        assert Join(parts, sep)[j] == parts[0][j];
      } else {
        JoinChar(parts[1..], sep, k - 1, j);
        var rest := Join(parts[1..], sep);
        var i :| 0 <= i < |rest| && rest[i] == parts[k][j];
        assert Join(parts, sep)[|parts[0]| + |sep| + i] == rest[i];
      }
    }
  }

  /** Blank input yields no item. */
  lemma EnvListBlank(raw: string)
    requires AllSpace(raw)
    ensures EnvList(raw) == []
  {
  }

  /** A character that does not start an escape stays as it is. */
  lemma ExpandCons(c: char, t: string)
    requires c != '\\' || t == [] || t[0] != 'n'
    ensures ExpandNewlineEscapes([c] + t) == [c] + ExpandNewlineEscapes(t)
  {
    var s := [c] + t;
    assert s[1..] == t;
    if |s| >= 2 {
      assert s[1] == t[0];
    }
  }

  lemma NoEscapeTail(p: string)
    requires p != [] && NoEscape(p)
    ensures NoEscape(p[1..])
  {
    forall i | 0 <= i < |p[1..]| - 1 ensures !(p[1..][i] == '\\' && p[1..][i + 1] == 'n') {
      assert p[1..][i] == p[i + 1] && p[1..][i + 1] == p[i + 2];
    }
  }

  lemma {:induction false} ExpandAfter(p: string, t: string)
    requires NoEscape(p)
    requires t == [] || t[0] != 'n'
    ensures ExpandNewlineEscapes(p + t) == p + ExpandNewlineEscapes(t)
  {
    if p == [] {
      assert p + t == t;
    } else {
      var u := p[1..] + t;
      NoEscapeTail(p);
      ExpandAfter(p[1..], t);
      if |p| >= 2 {
        assert u[0] == p[1];
      } else {
        assert u == t;
      }
      ExpandCons(p[0], u);
      ConsTail(p, t);
      ConsTail(p, ExpandNewlineEscapes(t));
    }
  }

  /** A separator at the front expands on its own. */
  lemma ExpandSep(sep: string, rest: string)
    requires sep == "," || sep == "\n" || sep == "\\n"
    ensures ExpandNewlineEscapes(sep + rest) == (if sep == "," then "," else "\n") + ExpandNewlineEscapes(rest)
  {
    var s := sep + rest;
    if sep == "\\n" {
      assert s[0] == '\\' && s[1] == 'n';
      assert s[2..] == rest;
    } else {
      assert s[0] == sep[0];
      assert s[1..] == rest;
    }
  }

  /** Expanding escapes in a join of escape-free items only turns a
      backslash-n separator into a line break. */
  lemma {:induction false} ExpandJoin(items: seq<string>, sep: string)
    requires forall k :: 0 <= k < |items| ==> NoEscape(items[k])
    requires sep == "," || sep == "\n" || sep == "\\n"
    ensures ExpandNewlineEscapes(Join(items, sep)) == Join(items, if sep == "," then "," else "\n")
  {
    var out := if sep == "," then "," else "\n";
    if |items| == 1 {
      ExpandNewlineEscapesSame(items[0]);
    } else if |items| > 1 {
      var rest := Join(items[1..], sep);
      Assoc(items[0], sep, rest);
      assert (sep + rest)[0] == sep[0];
      ExpandAfter(items[0], sep + rest);
      ExpandSep(sep, rest);
      ExpandJoin(items[1..], sep);
      Assoc(items[0], out, Join(items[1..], out));
    }
  }

  /** Lines joined by line breaks split back into themselves. */
  lemma {:induction false} SplitLinesJoin(items: seq<string>)
    requires |items| >= 1
    requires forall k :: 0 <= k < |items| ==> CleanItem(items[k])
    ensures SplitLines(Join(items, "\n")) == items
  {
    if |items| == 1 {
      SplitLinesSingle(items[0]);
    } else {
      var p := items[0];
      var rest := Join(items[1..], "\n");
      var s := Join(items, "\n");
      assert s == p + "\n" + rest;
      assert s[|p|] == '\n';
      assert forall k :: 0 <= k < |p| ==> s[k] == p[k];
      assert LineEnd(s) == |p|;
      assert s[..|p|] == p;
      assert s[|p| + 1..] == rest;
      SplitLinesJoin(items[1..]);
      assert [p] + items[1..] == items;
    }
  }

  lemma {:induction false} LinePiecesClean(p: string)
    requires CleanItem(p)
    ensures LinePieces(p) == [p]
  {
    SplitOnWithoutSeparator(p, ',');
  }

  lemma {:induction false} LinesPiecesCleanLines(items: seq<string>)
    requires forall k :: 0 <= k < |items| ==> CleanItem(items[k])
    ensures LinesPieces(items) == items
  {
    if items != [] {
      var init := items[..|items| - 1];
      assert forall k :: 0 <= k < |init| ==> init[k] == items[k];
      var last := items[|items| - 1];
      assert items == init + [last];
      assert LinesPieces(items) == LinesPieces(init) + LinePieces(last);
      LinesPiecesCleanLines(init);
      LinePiecesClean(last);
      assert LinesPieces(items) == init + [last];
    }
  }

  lemma {:induction false} KeepNonBlankClean(items: seq<string>)
    requires forall k :: 0 <= k < |items| ==> CleanItem(items[k])
    ensures KeepNonBlank(items) == items
  {
    if items != [] {
      KeepNonBlankClean(items[1..]);
      assert [items[0]] + items[1..] == items;
    }
  }

  lemma {:induction false} JoinNoBreak(items: seq<string>)
    requires forall k :: 0 <= k < |items| ==> CleanItem(items[k])
    ensures NoLineBreak(Join(items, ","))
  {
    if |items| > 1 {
      JoinNoBreak(items[1..]);
      var rest := Join(items[1..], ",");
      var s := Join(items, ",");
      assert s == items[0] + "," + rest;
      forall j | 0 <= j < |s| ensures !IsLineBreak(s[j]) {
        if j < |items[0]| {
          assert s[j] == items[0][j];
        } else if j > |items[0]| {
          assert s[j] == rest[j - |items[0]| - 1];
        }
      }
    }
  }

  /** `get_env_list` inverts joining: a list of clean items written with commas,
      with line breaks, or with backslash-n sequences between them reads back
      as exactly that list. */
  lemma {:induction false} EnvListOfJoin(items: seq<string>, sep: string)
    requires forall k :: 0 <= k < |items| ==> CleanItem(items[k])
    requires sep == "," || sep == "\n" || sep == "\\n"
    ensures EnvList(Join(items, sep)) == items
  {
    var s := Join(items, sep);
    if items != [] {
      JoinFirst(items, sep);
      JoinLast(items, sep);
      assert Strip(s) == s;
      ExpandJoin(items, sep);
      if sep == "," {
        JoinNoBreak(items);
        SplitLinesSingle(s);
        assert ConfigLines(s) == [s];
        assert LinesPieces([s]) == LinePieces(s);
        SplitOnJoin(items, ',');
        KeepNonBlankClean(items);
      } else {
        SplitLinesJoin(items);
        LinesPiecesCleanLines(items);
      }
    }
  }
}
