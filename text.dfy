/**
 * String helpers with Python's semantics: `str.strip()`, `str.split(",")`,
 * `str.splitlines()`, `"sep".join(...)`, `str.replace("\\n", "\n")` and the
 * code-point lexicographic order of `<` on strings.
 */
module Text {

  /** Python's `str.isspace()` for one character. */
  predicate IsSpace(c: char) {
    var n := c as int;
    n == 0x20 || 0x09 <= n <= 0x0d || 0x1c <= n <= 0x1f || n == 0x85 || n == 0xa0
    || n == 0x1680 || 0x2000 <= n <= 0x200a || n == 0x2028 || n == 0x2029
    || n == 0x202f || n == 0x205f || n == 0x3000
  }

  /** The characters at which Python's `str.splitlines()` breaks a line. */
  predicate IsLineBreak(c: char) {
    var n := c as int;
    0x0a <= n <= 0x0d || 0x1c <= n <= 0x1e || n == 0x85 || n == 0x2028 || n == 0x2029
  }

  /** `s` holds no line break. */
  predicate NoLineBreak(s: string) {
    forall j :: 0 <= j < |s| ==> !IsLineBreak(s[j])
  }

  predicate IsDigit(c: char) {
    '0' <= c <= '9'
  }

  predicate AllSpace(s: string) {
    forall i :: 0 <= i < |s| ==> IsSpace(s[i])
  }

  /** Neither end of `s` is white space. */
  predicate IsStripped(s: string) {
    s == [] || (!IsSpace(s[0]) && !IsSpace(s[|s| - 1]))
  }

  /** Where `s.lstrip()` starts: the number of leading white-space characters. */
  function StripStart(s: string): (i: nat)
    ensures i <= |s|
    ensures forall k :: 0 <= k < i ==> IsSpace(s[k])
    ensures i < |s| ==> !IsSpace(s[i])
  {
    if |s| > 0 && IsSpace(s[0]) then 1 + StripStart(s[1..]) else 0
  }

  /** Where `s[lo:].rstrip()` ends: trailing white space is dropped, never
      below `lo`. */
  function StripEnd(s: string, lo: nat): (j: nat)
    requires lo <= |s|
    ensures lo <= j <= |s|
    ensures forall k :: j <= k < |s| ==> IsSpace(s[k])
    ensures j > lo ==> !IsSpace(s[j - 1])
  {
    if |s| > lo && IsSpace(s[|s| - 1]) then StripEnd(s[..|s| - 1], lo) else |s|
  }

  /** `s.strip()`: the result has no white space at either end, is empty exactly
      when `s` is all white space, and leaves an already stripped string alone. */
  function Strip(s: string): (r: string)
    ensures IsStripped(r)
    ensures r == [] <==> AllSpace(s)
    ensures IsStripped(s) ==> r == s
  {
    var i := StripStart(s);
    var j := StripEnd(s, i);
    s[i..j]
  }

  /** The stripped string is the slice of the original left once white space
      is cut from both ends, and only white space is cut. */
  lemma StripSlice(s: string) returns (a: nat, b: nat)
    ensures a <= b <= |s| && Strip(s) == s[a..b]
    ensures AllSpace(s[..a]) && AllSpace(s[b..])
  {
    a := StripStart(s);
    b := StripEnd(s, a);
    assert forall k :: 0 <= k < a ==> s[..a][k] == s[k];
    assert forall k :: 0 <= k < |s| - b ==> s[b..][k] == s[b + k];
  }

  /** `s[:n]` for a non-negative `n`. */
  function Take(s: string, n: nat): (r: string)
    ensures |r| == if n < |s| then n else |s|
    ensures r == s[..|r|]
  {
    if n < |s| then s[..n] else s
  }

  /** `sep.join(parts)` */
  function Join(parts: seq<string>, sep: string): string
  {
    if |parts| == 0 then ""
    else if |parts| == 1 then parts[0]
    else parts[0] + sep + Join(parts[1..], sep)
  }

  /** `s.split(c)` for a one-character separator: never an empty list, no piece
      holds the separator, and joining the pieces back gives `s` (JoinSplitOn). */
  function SplitOn(s: string, c: char): (r: seq<string>)
    ensures |r| >= 1
    ensures forall k :: 0 <= k < |r| ==> c !in r[k]
  {
    if |s| == 0 then [""]
    else
      var rest := SplitOn(s[1..], c);
      if s[0] == c then [""] + rest
      else [[s[0]] + rest[0]] + rest[1..]
  }

  /** Index of the first line break of `s`, or `|s|` when there is none. */
  function LineEnd(s: string): (i: nat)
    ensures i <= |s|
    ensures i < |s| ==> IsLineBreak(s[i])
    ensures forall k :: 0 <= k < i ==> !IsLineBreak(s[k])
  {
    if s == [] then 0
    else if IsLineBreak(s[0]) then 0
    else 1 + LineEnd(s[1..])
  }

  /** `s.splitlines()`: "\r\n" is one break, and a final break does not start
      an empty last line. No line holds a line break. */
  function SplitLines(s: string): (r: seq<string>)
    ensures forall k :: 0 <= k < |r| ==> NoLineBreak(r[k])
    decreases |s|
  {
    if s == [] then []
    else
      var i := LineEnd(s);
      if i == |s| then [s]
      else
        var next := if s[i] == '\r' && i + 1 < |s| && s[i + 1] == '\n' then i + 2 else i + 1;
        [s[..i]] + SplitLines(s[next..])
  }

  /** No backslash of `s` is followed by the letter n. */
  predicate NoEscape(s: string) {
    forall i :: 0 <= i < |s| - 1 ==> !(s[i] == '\\' && s[i + 1] == 'n')
  }

  /** `s.replace("\\n", "\n")`: every two-character sequence backslash, n
      (scanned left to right, not overlapping) becomes a real newline. */
  function ExpandNewlineEscapes(s: string): (r: string)
    ensures |r| <= |s|
  {
    if |s| >= 2 && s[0] == '\\' && s[1] == 'n' then "\n" + ExpandNewlineEscapes(s[2..])
    else if s == [] then []
    else [s[0]] + ExpandNewlineEscapes(s[1..])
  }

  /** Python's `a < b` on strings: code-point lexicographic order. */
  predicate StrLess(a: string, b: string) {
    if |a| == 0 then |b| > 0
    else if |b| == 0 then false
    else if a[0] != b[0] then a[0] < b[0]
    else StrLess(a[1..], b[1..])
  }

  // ---------------------------------------------------------------------------
  // Lemmas

  lemma {:induction false} StrLessIrreflexive(a: string)
    ensures !StrLess(a, a)
  {
    if |a| > 0 {
      StrLessIrreflexive(a[1..]);
    }
  }

  lemma {:induction false} StrLessTransitive(a: string, b: string, c: string)
    requires StrLess(a, b) && StrLess(b, c)
    ensures StrLess(a, c)
  {
    if |a| > 0 && |b| > 0 && |c| > 0 && a[0] == b[0] && b[0] == c[0] {
      StrLessTransitive(a[1..], b[1..], c[1..]);
    }
  }

  /** Any two different strings are ordered one way or the other. */
  lemma {:induction false} StrLessTotal(a: string, b: string)
    requires a != b
    ensures StrLess(a, b) || StrLess(b, a)
  {
    if |a| > 0 && |b| > 0 && a[0] == b[0] {
      assert a == [a[0]] + a[1..] && b == [b[0]] + b[1..];
      StrLessTotal(a[1..], b[1..]);
    }
  }

  lemma {:induction false} StrLessAsymmetric(a: string, b: string)
    requires StrLess(a, b)
    ensures !StrLess(b, a)
  {
    if |a| > 0 && |b| > 0 && a[0] == b[0] {
      StrLessAsymmetric(a[1..], b[1..]);
    }
  }

  /** A string without the separator splits into itself alone. */
  lemma {:induction false} SplitOnWithoutSeparator(s: string, c: char)
    requires c !in s
    ensures SplitOn(s, c) == [s]
  {
    if |s| > 0 {
      assert c !in s[1..] by {
        forall k | 0 <= k < |s[1..]| ensures s[1..][k] != c { assert s[1..][k] == s[k + 1]; }
      }
      SplitOnWithoutSeparator(s[1..], c);
      assert [s[0]] + s[1..] == s;
    }
  }

  lemma {:induction false} SplitOnAfterPiece(p: string, c: char, t: string)
    requires c !in p
    ensures SplitOn(p + [c] + t, c) == [p] + SplitOn(t, c)
  {
    if p == [] {
      assert (p + [c] + t)[1..] == t;
    } else {
      var s := p + [c] + t;
      assert s[1..] == p[1..] + [c] + t;
      assert c !in p[1..] by {
        forall k | 0 <= k < |p[1..]| ensures p[1..][k] != c { assert p[1..][k] == p[k + 1]; }
      }
      SplitOnAfterPiece(p[1..], c, t);
      assert [p[0]] + p[1..] == p;
    }
  }

  /** Splitting the join of separator-free pieces gives the pieces back. */
  lemma {:induction false} SplitOnJoin(parts: seq<string>, c: char)
    requires |parts| >= 1
    requires forall k :: 0 <= k < |parts| ==> c !in parts[k]
    ensures SplitOn(Join(parts, [c]), c) == parts
  {
    if |parts| == 1 {
      SplitOnWithoutSeparator(parts[0], c);
    } else {
      SplitOnJoin(parts[1..], c);
      SplitOnAfterPiece(parts[0], c, Join(parts[1..], [c]));
      assert [parts[0]] + parts[1..] == parts;
    }
  }

  /** Joining the pieces of a split with the separator gives the string back. */
  lemma {:induction false} JoinSplitOn(s: string, c: char)
    ensures Join(SplitOn(s, c), [c]) == s
  {
    if |s| > 0 {
      var rest := SplitOn(s[1..], c);
      JoinSplitOn(s[1..], c);
      if s[0] == c {
        assert SplitOn(s, c) == [""] + rest;
        assert ([""] + rest)[1..] == rest;
        assert s == [c] + s[1..];
      } else {
        var r := SplitOn(s, c);
        assert r == [[s[0]] + rest[0]] + rest[1..];
        assert r[1..] == rest[1..];
        assert s == [s[0]] + s[1..];
        if |rest| > 1 {
          assert Join(rest, [c]) == rest[0] + [c] + Join(rest[1..], [c]);
        }
      }
    }
  }

  /** A non-empty string with no line break is one line. */
  lemma SplitLinesSingle(s: string)
    requires s != [] && NoLineBreak(s)
    ensures SplitLines(s) == [s]
  {
  }

  lemma {:induction false} ExpandNewlineEscapesSame(s: string)
    requires NoEscape(s)
    ensures ExpandNewlineEscapes(s) == s
  {
    if |s| > 0 {
      assert NoEscape(s[1..]) by {
        forall i | 0 <= i < |s[1..]| - 1 ensures !(s[1..][i] == '\\' && s[1..][i + 1] == 'n') {
          assert s[1..][i] == s[i + 1] && s[1..][i + 1] == s[i + 2];
        }
      }
      ExpandNewlineEscapesSame(s[1..]);
      assert [s[0]] + s[1..] == s;
    }
  }

  /** The first character of a join is the first character of its first
      non-empty piece; here used only for a non-empty first piece. */
  lemma {:induction false} JoinFirst(parts: seq<string>, sep: string)
    requires |parts| >= 1 && parts[0] != []
    ensures Join(parts, sep) != [] && Join(parts, sep)[0] == parts[0][0]
  {
  }

  lemma {:induction false} JoinLast(parts: seq<string>, sep: string)
    requires |parts| >= 1 && parts[|parts| - 1] != []
    ensures Join(parts, sep) != []
    ensures Join(parts, sep)[|Join(parts, sep)| - 1] == parts[|parts| - 1][|parts[|parts| - 1]| - 1]
  {
    if |parts| > 1 {
      JoinLast(parts[1..], sep);
    }
  }
}
