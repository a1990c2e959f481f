/** The handful of Python `str` operations the parsers and planners use,
    stated character by character: `strip()`, `splitlines()`, `split(sep)`,
    `sep.join(parts)` and a case-insensitive `startswith` on `lower()`. */
module Text {

  /** Python's `str.isspace()` for one character: the characters `strip()`
      with no argument removes. */
  predicate IsSpace(c: char) {
    c == ' ' || ('\t' <= c <= '\r') || ('\U{1C}' <= c <= '\U{1F}')
    || c == '\U{85}' || c == '\U{A0}' || c == '\U{1680}'
    || ('\U{2000}' <= c <= '\U{200A}') || c == '\U{2028}' || c == '\U{2029}'
    || c == '\U{202F}' || c == '\U{205F}' || c == '\U{3000}'
  }

  /** The line boundaries of Python's `str.splitlines()` ("\r\n" counts as one). */
  predicate IsLineBreak(c: char) {
    ('\n' <= c <= '\r') || ('\U{1C}' <= c <= '\U{1E}')
    || c == '\U{85}' || c == '\U{2028}' || c == '\U{2029}'
  }

  /** `s.lstrip()`: drops the leading whitespace, keeps the rest. */
  function TrimStart(s: string): (r: string)
    ensures |r| <= |s|
    ensures r == [] || !IsSpace(r[0])
    decreases |s|
  {
    if |s| > 0 && IsSpace(s[0]) then TrimStart(s[1..]) else s
  }

  /** `s.rstrip()`: drops the trailing whitespace, keeps the rest. */
  function TrimEnd(s: string): (r: string)
    ensures |r| <= |s|
    ensures r == [] || !IsSpace(r[|r| - 1])
    decreases |s|
  {
    if |s| > 0 && IsSpace(s[|s| - 1]) then TrimEnd(s[..|s| - 1]) else s
  }

  /** What `lstrip()` leaves is a suffix of the string. */
  lemma {:induction false} TrimStartIsSuffix(s: string)
    ensures TrimStart(s) == s[|s| - |TrimStart(s)|..]
    decreases |s|
  {
    if |s| > 0 && IsSpace(s[0]) {
      TrimStartIsSuffix(s[1..]);
    }
  }

  /** What `rstrip()` leaves is a prefix of the string. */
  lemma {:induction false} TrimEndIsPrefix(s: string)
    ensures TrimEnd(s) == s[..|TrimEnd(s)|]
    decreases |s|
  {
    if |s| > 0 && IsSpace(s[|s| - 1]) {
      TrimEndIsPrefix(s[..|s| - 1]);
    }
  }

  /** `s.strip()`. */
  function Strip(s: string): (r: string)
    ensures |r| <= |s|
    ensures r == [] || (!IsSpace(r[0]) && !IsSpace(r[|r| - 1]))
  {
    TrimEndIsPrefix(TrimStart(s));
    TrimEnd(TrimStart(s))
  }

  /** A string that `strip()` leaves as it is. */
  predicate IsStripped(s: string) {
    s == [] || (!IsSpace(s[0]) && !IsSpace(s[|s| - 1]))
  }

  lemma StripOfStripped(s: string)
    requires IsStripped(s)
    ensures Strip(s) == s
  {
  }

  lemma {:induction false} StripAfterSpace(c: char, s: string)
    requires IsSpace(c)
    ensures Strip([c] + s) == Strip(s)
  {
    assert ([c] + s)[1..] == s;
  }

  lemma StripIdempotent(s: string)
    ensures Strip(Strip(s)) == Strip(s)
  {
    StripOfStripped(Strip(s));
  }

  /** `strip()` only removes characters. */
  lemma StripKeepsChars(g: string)
    ensures forall c :: c in Strip(g) ==> c in g
  {
    var t := TrimStart(g);
    TrimStartIsSuffix(g);
    assert forall c :: c in t ==> c in g by {
      forall c | c in t ensures c in g {
        var k :| 0 <= k < |t| && t[k] == c;
        assert g[|g| - |t| + k] == c;
      }
    }
    var r := TrimEnd(t);
    TrimEndIsPrefix(t);
    forall c | c in r ensures c in t {
      var k :| 0 <= k < |r| && r[k] == c;
      assert t[k] == c;
    }
  }

  /** Lower-cases the ASCII letters and leaves every other character alone. */
  function LowerAscii(c: char): char {
    if 'A' <= c <= 'Z' then (c as int + 32) as char else c
  }

  /** `s.lower().startswith(prefix)` for a lower-case ASCII `prefix`.
      The prefixes used here ("question", "answer", "a)" to "d)") contain no
      "k", the one ASCII letter that `lower()` also produces from a non-ASCII
      character alone (U+212A); U+0130 becomes "i" followed by U+0307, which
      never continues these prefixes. For them, comparing position by
      position after lower-casing the ASCII letters gives Python's answer. */
  predicate StartsWithLower(s: string, prefix: string) {
    |prefix| <= |s| && forall k :: 0 <= k < |prefix| ==> LowerAscii(s[k]) == prefix[k]
  }

  /** The first index at or after `from` holding `c`, or `|s|`. */
  function IndexFrom(s: string, c: char, from: nat): (i: nat)
    requires from <= |s|
    ensures from <= i <= |s|
    ensures i < |s| ==> s[i] == c
    ensures forall k :: from <= k < i ==> s[k] != c
    decreases |s| - from
  {
    if from == |s| || s[from] == c then from else IndexFrom(s, c, from + 1)
  }

  /** Python's `s.split(sep)` for a one-character separator: always at least
      one part, and one more part than there are separators. */
  function Split(s: string, sep: char): (parts: seq<string>)
    ensures |parts| >= 1
    ensures forall k :: 0 <= k < |parts| ==> sep !in parts[k]
    decreases |s|
  {
    var i := IndexFrom(s, sep, 0);
    if i == |s| then [s] else [s[..i]] + Split(s[i + 1..], sep)
  }

  lemma SplitHasTwoPartsIff(s: string, sep: char)
    ensures |Split(s, sep)| >= 2 <==> sep in s
  {
    var i := IndexFrom(s, sep, 0);
    if i == |s| {
      assert sep !in s;
    }
  }

  /** `sep.join(parts)`. */
  function Join(sep: string, parts: seq<string>): (r: string)
    ensures parts == [] ==> r == []
    ensures |parts| == 1 ==> r == parts[0]
    decreases |parts|
  {
    if parts == [] then []
    else if |parts| == 1 then parts[0]
    else parts[0] + sep + Join(sep, parts[1..])
  }

  lemma SplitCons(p: string, sep: char, rest: string)
    requires sep !in p
    ensures Split(p + [sep] + rest, sep) == [p] + Split(rest, sep)
  {
    var s := p + ([sep] + rest);
    assert s == p + [sep] + rest;
    IndexOfFirst(p, [sep] + rest, sep);
    assert s[|p| + 1..] == rest;
    assert s[..|p|] == p;
  }

  lemma {:induction false} SplitOfJoin(sep: char, parts: seq<string>)
    requires parts != []
    requires forall k :: 0 <= k < |parts| ==> sep !in parts[k]
    ensures Split(Join([sep], parts), sep) == parts
    decreases |parts|
  {
    if |parts| > 1 {
      SplitCons(parts[0], sep, Join([sep], parts[1..]));
      SplitOfJoin(sep, parts[1..]);
    } else {
      IndexAbsent(parts[0], sep);
    }
  }

  lemma IndexAbsent(s: string, c: char)
    requires c !in s
    ensures IndexFrom(s, c, 0) == |s|
  {
  }

  lemma IndexOfFirst(p: string, t: string, c: char)
    requires c !in p && t != [] && t[0] == c
    ensures IndexFrom(p + t, c, 0) == |p|
  {
    assert forall k :: 0 <= k < |p| ==> (p + t)[k] == p[k];
    assert (p + t)[|p|] == t[0];
  }

  /** The index of the first line boundary at or after `from`, or `|s|`. */
  function LineEnd(s: string, from: nat): (i: nat)
    requires from <= |s|
    ensures from <= i <= |s|
    ensures i < |s| ==> IsLineBreak(s[i])
    ensures forall k :: from <= k < i ==> !IsLineBreak(s[k])
    decreases |s| - from
  {
    if from == |s| || IsLineBreak(s[from]) then from else LineEnd(s, from + 1)
  }

  /** Python's `s.splitlines()`: the lines without their boundaries; a final
      boundary does not start an extra empty line. */
  function SplitLines(s: string): (lines: seq<string>)
    ensures s == [] <==> lines == []
    ensures forall k :: 0 <= k < |lines| ==> forall c :: c in lines[k] ==> !IsLineBreak(c)
    decreases |s|
  {
    if s == [] then []
    else
      var e := LineEnd(s, 0);
      if e == |s| then [s]
      else
        var w := if s[e] == '\r' && e + 1 < |s| && s[e + 1] == '\n' then 2 else 1;
        [s[..e]] + SplitLines(s[e + w..])
  }

  /** A line that `splitlines()` would return whole. */
  predicate NoBreaks(s: string) {
    forall c :: c in s ==> !IsLineBreak(c)
  }

  lemma LineEndOfFirst(p: string, t: string)
    requires NoBreaks(p) && t != [] && IsLineBreak(t[0])
    ensures LineEnd(p + t, 0) == |p|
  {
    assert forall k :: 0 <= k < |p| ==> (p + t)[k] == p[k];
    assert (p + t)[|p|] == t[0];
  }

  /** One break-free, non-empty line followed by "\n" and more text. */
  lemma SplitLinesCons(p: string, rest: string)
    requires NoBreaks(p) && rest != []
    ensures SplitLines(p + "\n" + rest) == [p] + SplitLines(rest)
  {
    var s := p + ("\n" + rest);
    assert s == p + "\n" + rest;
    LineEndOfFirst(p, "\n" + rest);
    assert s[|p|] == '\n';
    assert s[|p| + 1..] == rest;
    assert s[..|p|] == p;
  }

  /** Joining non-empty, break-free lines with "\n" and splitting them again
      gives the lines back. */
  lemma {:induction false} SplitLinesOfJoin(lines: seq<string>)
    requires forall k :: 0 <= k < |lines| ==> lines[k] != [] && NoBreaks(lines[k])
    ensures SplitLines(Join("\n", lines)) == lines
    decreases |lines|
  {
    if |lines| == 1 {
      var s := lines[0];
      assert LineEnd(s, 0) == |s|;
    } else if |lines| > 1 {
      JoinNonEmpty("\n", lines[1..]);
      SplitLinesCons(lines[0], Join("\n", lines[1..]));
      SplitLinesOfJoin(lines[1..]);
    }
  }

  lemma {:induction false} JoinNonEmpty(sep: string, parts: seq<string>)
    requires parts != [] && parts[0] != []
    ensures Join(sep, parts) != []
  {
    if |parts| > 1 {
      assert Join(sep, parts)[0] == parts[0][0];
    }
  }
}
