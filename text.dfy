/**
 * The few operations on Python `str` values that the monitor relies on:
 * `isspace`, `strip`, `lower`, `split` on one character and `join`.
 */
module Text {

  /** Python's `str.isspace()` for one character. */
  predicate IsSpace(c: char) {
    || ('\t' <= c <= '\r')
    || ('\U{1c}' <= c <= ' ')
    || c == '\U{85}' || c == '\U{a0}' || c == '\U{1680}'
    || ('\U{2000}' <= c <= '\U{200a}')
    || c == '\U{2028}' || c == '\U{2029}' || c == '\U{202f}' || c == '\U{205f}' || c == '\U{3000}'
  }

  /** The number of whitespace characters at the front of `s`. */
  function LeadingSpace(s: string): (n: nat)
    ensures n <= |s|
    ensures forall k :: 0 <= k < n ==> IsSpace(s[k])
    ensures n < |s| ==> !IsSpace(s[n])
  {
    if s == [] || !IsSpace(s[0]) then 0 else 1 + LeadingSpace(s[1..])
  }

  /** The number of whitespace characters at the back of `s`. */
  function TrailingSpace(s: string): (n: nat)
    ensures n <= |s|
    ensures forall k :: |s| - n <= k < |s| ==> IsSpace(s[k])
    ensures n < |s| ==> !IsSpace(s[|s| - 1 - n])
  {
    if s == [] || !IsSpace(s[|s| - 1]) then 0 else 1 + TrailingSpace(s[..|s| - 1])
  }

  /**
   * Python's `s.strip()`: the infix of `s` left after removing the whitespace
   * at both ends. It is empty exactly when `s` is all whitespace, and
   * otherwise starts and ends with a non-space character.
   */
  function Strip(s: string): (r: string)
    ensures var lead := LeadingSpace(s);
      && lead + |r| <= |s|
      && s[lead..lead + |r|] == r
      && (forall k :: 0 <= k < lead ==> IsSpace(s[k]))
      && (forall k :: lead + |r| <= k < |s| ==> IsSpace(s[k]))
    ensures r != [] ==> !IsSpace(r[0]) && !IsSpace(r[|r| - 1])
    ensures r == [] <==> forall k :: 0 <= k < |s| ==> IsSpace(s[k])
  {
    var rest := s[LeadingSpace(s)..];
    rest[..|rest| - TrailingSpace(rest)]
  }

  /** Every non-space character of `s` survives `Strip`. */
  lemma StripKeeps(s: string, k: nat)
    requires k < |s| && !IsSpace(s[k])
    ensures s[k] in Strip(s)
  {
    var lead, r := LeadingSpace(s), Strip(s);
    assert lead <= k < lead + |r|;
    assert r[k - lead] == s[k];
  }

  /** A string with no whitespace at either end is its own `Strip`. */
  lemma StripTrimmed(s: string)
    requires s != [] && !IsSpace(s[0]) && !IsSpace(s[|s| - 1])
    ensures Strip(s) == s
  {
  }

  /** A whitespace character in front does not change `Strip`. */
  lemma StripSpaceCons(c: char, s: string)
    requires IsSpace(c)
    ensures Strip([c] + s) == Strip(s)
  {
    assert ([c] + s)[1..] == s;
    assert ([c] + s)[LeadingSpace([c] + s)..] == s[LeadingSpace(s)..];
  }

  /** Python's `str.lower()` on one character (ASCII letters only). */
  function LowerChar(c: char): char {
    if 'A' <= c <= 'Z' then (c as int - 'A' as int + 'a' as int) as char else c
  }

  /** Python's `s.lower()`, character by character. */
  function Lower(s: string): (r: string)
    ensures |r| == |s|
    ensures forall i :: 0 <= i < |r| ==> !('A' <= r[i] <= 'Z')
    ensures forall i :: 0 <= i < |s| && !('A' <= s[i] <= 'Z') ==> r[i] == s[i]
    ensures forall i :: 0 <= i < |s| && 'A' <= s[i] <= 'Z' ==> r[i] as int == s[i] as int + 32
  {
    seq(|s|, i requires 0 <= i < |s| => LowerChar(s[i]))
  }

  /** Lower-casing twice is lower-casing once. */
  lemma LowerIdempotent(s: string)
    ensures Lower(Lower(s)) == Lower(s)
  {
    assert forall i :: 0 <= i < |s| ==> Lower(Lower(s))[i] == Lower(s)[i];
  }

  /** The position of the first `c` in `s`. */
  function IndexOf(s: string, c: char): (i: nat)
    requires c in s
    ensures i < |s| && s[i] == c && c !in s[..i]
  {
    if s[0] == c then 0 else 1 + IndexOf(s[1..], c)
  }

  /** Python's `sep.join(parts)`: it starts with the first part, and with the separator after it when more follow. */
  function Join(parts: seq<string>, sep: string): (s: string)
    ensures parts == [] ==> s == []
    ensures |parts| >= 1 ==> |parts[0]| <= |s| && s[..|parts[0]|] == parts[0]
    ensures |parts| >= 2 ==> |parts[0] + sep| <= |s| && s[..|parts[0] + sep|] == parts[0] + sep
  {
    if |parts| == 0 then ""
    else if |parts| == 1 then parts[0]
    else parts[0] + sep + Join(parts[1..], sep)
  }

  /**
   * Python's `s.split(sep)` for a one-character separator: the pieces
   * between the occurrences of `sep`, at least one, none containing `sep`,
   * that `Join` puts back together into `s`.
   */
  function Split(s: string, sep: char): (parts: seq<string>)
    ensures |parts| >= 1
    ensures forall p :: p in parts ==> sep !in p
    ensures Join(parts, [sep]) == s
    decreases |s|
  {
    if sep !in s then [s]
    else
      var i := IndexOf(s, sep);
      var rest := Split(s[i + 1..], sep);
      assert s == s[..i] + [sep] + s[i + 1..];
      [s[..i]] + rest
  }

  /** A split peels off the text before the first separator. */
  lemma SplitFirst(p: string, sep: char, tail: string)
    requires sep !in p
    ensures Split(p + [sep] + tail, sep) == [p] + Split(tail, sep)
  {
    var s := p + [sep] + tail;
    assert s[..|p|] == p && s[|p|] == sep;
    var i := IndexOf(s, sep);
    assert i == |p|;
    assert s[i + 1..] == tail;
  }

  /** Splitting undoes joining on the same separator. */
  lemma {:induction false} SplitJoin(parts: seq<string>, sep: char)
    requires |parts| >= 1
    requires forall p :: p in parts ==> sep !in p
    ensures Split(Join(parts, [sep]), sep) == parts
    decreases |parts|
  {
    if |parts| > 1 {
      var p0, rest := parts[0], parts[1..];
      assert p0 in parts;
      assert Join(parts, [sep]) == p0 + [sep] + Join(rest, [sep]);
      SplitFirst(p0, sep, Join(rest, [sep]));
      SplitJoin(rest, sep);
      assert parts == [p0] + rest;
    }
  }

  /** Joining two non-empty lists puts one separator between their joins. */
  lemma {:induction false} JoinAppend(xs: seq<string>, ys: seq<string>, sep: string)
    requires |xs| >= 1 && |ys| >= 1
    ensures Join(xs + ys, sep) == Join(xs, sep) + sep + Join(ys, sep)
    decreases |xs|
  {
    if |xs| > 1 {
      assert (xs + ys)[1..] == xs[1..] + ys;
      JoinAppend(xs[1..], ys, sep);
    } else {
      assert (xs + ys)[1..] == ys;
    }
  }

  /** Splitting distributes over a separator: the pieces of each side, in order. */
  lemma SplitAround(a: string, b: string, sep: char)
    ensures Split(a + [sep] + b, sep) == Split(a, sep) + Split(b, sep)
  {
    var xs, ys := Split(a, sep), Split(b, sep);
    JoinAppend(xs, ys, [sep]);
    assert forall p :: p in xs + ys ==> p in xs || p in ys;
    SplitJoin(xs + ys, sep);
  }

  /** A non-empty last part is where `Join` ends: nothing, no separator, follows it. */
  lemma {:induction false} JoinEndsWithLast(parts: seq<string>, sep: string)
    requires |parts| >= 1
    ensures var s := Join(parts, sep); var last := parts[|parts| - 1];
      |last| <= |s| && s[|s| - |last|..] == last
    decreases |parts|
  {
    if |parts| > 1 {
      JoinEndsWithLast(parts[1..], sep);
      var tail := Join(parts[1..], sep);
      assert Join(parts, sep) == (parts[0] + sep) + tail;
    }
  }

  /**
   * Lines free of `sep`, the last of them non-empty, joined by `sep`: the
   * text splits back into the same lines and does not end with `sep`.
   */
  lemma JoinedLines(lines: seq<string>, sep: char)
    requires |lines| >= 1 && lines[|lines| - 1] != []
    requires forall line :: line in lines ==> sep !in line
    ensures Split(Join(lines, [sep]), sep) == lines
    ensures var text := Join(lines, [sep]); text != [] && text[|text| - 1] != sep
  {
    SplitJoin(lines, sep);
    JoinEndsWithLast(lines, [sep]);
    var text := Join(lines, [sep]);
    var last := lines[|lines| - 1];
    assert text[|text| - |last|..] == last;
    assert text[|text| - 1] == last[|last| - 1];
    assert last in lines;
  }

  /** The line boundaries of Python's `str.splitlines()`. */
  predicate IsLineBreak(c: char) {
    || c == '\n' || c == '\r' || c == '\U{0b}' || c == '\U{0c}'
    || ('\U{1c}' <= c <= '\U{1e}')
    || c == '\U{85}' || c == '\U{2028}' || c == '\U{2029}'
  }

  /** Where the line boundary starting at `s[i]` ends: `\r\n` is one boundary. */
  function BreakEnd(s: string, i: nat): nat
    requires i < |s| && IsLineBreak(s[i])
  {
    if s[i] == '\r' && i + 1 < |s| && s[i + 1] == '\n' then i + 2 else i + 1
  }

  /**
   * `len(s.splitlines()) > 1`: some line boundary of `s` is followed by more
   * text. A single boundary at the very end leaves one line.
   */
  predicate MultiLine(s: string) {
    exists i :: 0 <= i < |s| && IsLineBreak(s[i]) && BreakEnd(s, i) < |s|
  }

  /** A line boundary with text after it makes a value span several lines. */
  lemma InteriorBreak(a: string, c: char, b: string)
    requires IsLineBreak(c) && b != []
    requires c == '\r' ==> b != "\n"
    ensures MultiLine(a + [c] + b)
  {
    var s := a + [c] + b;
    assert s[|a|] == c;
    assert BreakEnd(s, |a|) < |s|;
  }

  /** A value without line boundaries, followed by at most one, is a single line. */
  lemma OneTrailingBreak(a: string, c: char)
    requires forall k :: 0 <= k < |a| ==> !IsLineBreak(a[k])
    requires IsLineBreak(c)
    ensures !MultiLine(a) && !MultiLine(a + [c])
  {
    var s := a + [c];
    assert forall i :: 0 <= i < |a| ==> s[i] == a[i];
  }

  /** A line boundary keeps its extent when text is put in front. */
  lemma BreakEndShift(p: string, s: string, i: nat)
    requires i < |s| && IsLineBreak(s[i])
    ensures (p + s)[|p| + i] == s[i]
    ensures BreakEnd(p + s, |p| + i) == |p| + BreakEnd(s, i)
  {
    assert (p + s)[|p| + i] == s[i];
    if i + 1 < |s| {
      assert (p + s)[|p| + i + 1] == s[i + 1];
    }
  }

  /** Text without line boundaries put in front does not change whether a value spans several lines. */
  lemma MultiLineAfter(p: string, s: string)
    requires forall k :: 0 <= k < |p| ==> !IsLineBreak(p[k])
    ensures MultiLine(p + s) <==> MultiLine(s)
  {
    var t := p + s;
    if MultiLine(s) {
      var i :| 0 <= i < |s| && IsLineBreak(s[i]) && BreakEnd(s, i) < |s|;
      BreakEndShift(p, s, i);
    }
    if MultiLine(t) {
      var j :| 0 <= j < |t| && IsLineBreak(t[j]) && BreakEnd(t, j) < |t|;
      BreakEndShift(p, s, j - |p|);
    }
  }
}
