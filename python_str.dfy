/** The parts of Python's `str` that the scraper relies on: the whitespace
    class, `strip()`, `startswith`, the `in` substring test, `splitlines()`
    and element 1 of `split("=")`. */
module PyStr {

  datatype Option<+T> = None | Some(value: T)

  /** `c.isspace()`: the characters `str.strip()` removes and the `\s` class of `re` matches. */
  predicate IsSpace(c: char) {
    ('\t' <= c <= '\r') || ('\U{1C}' <= c <= '\U{1F}') || c == ' ' || c == '\U{85}' || c == '\U{A0}'
    || c == '\U{1680}' || ('\U{2000}' <= c <= '\U{200A}') || c == '\U{2028}' || c == '\U{2029}'
    || c == '\U{202F}' || c == '\U{205F}' || c == '\U{3000}'
  }

  /** The line boundaries `str.splitlines()` splits on (`\r\n` counts as one). */
  predicate IsLineBreak(c: char) {
    c == '\n' || c == '\r' || c == '\U{0B}' || c == '\U{0C}' || ('\U{1C}' <= c <= '\U{1E}')
    || c == '\U{85}' || c == '\U{2028}' || c == '\U{2029}'
  }

  /** The end of the longest run of characters in `inClass` that starts at `i`. */
  function RunEnd(s: string, i: nat, inClass: char -> bool): (j: nat)
    requires i <= |s|
    ensures i <= j <= |s|
    ensures forall k :: i <= k < j ==> inClass(s[k])
    ensures j < |s| ==> !inClass(s[j])
    decreases |s| - i
  {
    if i == |s| || !inClass(s[i]) then i else RunEnd(s, i + 1, inClass)
  }

  /** The index of the first `c` in `s`, or `|s|` when there is none. */
  function IndexOf(s: string, c: char): (i: nat)
    ensures i <= |s|
    ensures i < |s| ==> s[i] == c
    ensures forall k :: 0 <= k < i ==> s[k] != c
  {
    RunEnd(s, 0, x => x != c)
  }

  // ---------------------------------------------------------------- strip

  /** The number of whitespace characters at the front of `s`. */
  function LeadingSpace(s: string): (n: nat)
    ensures n <= |s|
    ensures forall k :: 0 <= k < n ==> IsSpace(s[k])
    ensures n < |s| ==> !IsSpace(s[n])
  {
    RunEnd(s, 0, IsSpace)
  }

  /** The number of whitespace characters at the back of `s`. */
  function TrailingSpace(s: string): (n: nat)
    ensures n <= |s|
    ensures forall k :: |s| - n <= k < |s| ==> IsSpace(s[k])
    ensures n < |s| ==> !IsSpace(s[|s| - 1 - n])
  {
    if |s| == 0 || !IsSpace(s[|s| - 1]) then 0 else 1 + TrailingSpace(s[..|s| - 1])
  }

  /** `r` is what is left of `s` once `i` leading and `|s| - i - |r|` trailing
      whitespace characters are removed, and `r` neither starts nor ends in whitespace. */
  ghost predicate StrippedAt(s: string, r: string, i: nat) {
    && i + |r| <= |s|
    && s[i..i + |r|] == r
    && (forall k :: 0 <= k < i ==> IsSpace(s[k]))
    && (forall k :: i + |r| <= k < |s| ==> IsSpace(s[k]))
    && (|r| > 0 ==> !IsSpace(r[0]) && !IsSpace(r[|r| - 1]))
  }

  /** Python's `s.strip()`. */
  function Strip(s: string): (r: string)
    ensures exists i: nat :: StrippedAt(s, r, i)
  {
    var n := LeadingSpace(s);
    var t := s[n..];
    var r := t[..|t| - TrailingSpace(t)];
    assert |r| > 0 ==> r[0] == s[n];
    assert StrippedAt(s, r, n);
    r
  }

  /** Only all-whitespace strings strip to the empty string. */
  lemma StripEmptyIff(s: string)
    ensures Strip(s) == "" <==> forall k :: 0 <= k < |s| ==> IsSpace(s[k])
  {
    var i: nat :| StrippedAt(s, Strip(s), i);
    if Strip(s) != "" {
      assert !IsSpace(s[i]);
    }
  }

  /** A string that already neither starts nor ends in whitespace is its own strip. */
  lemma StripOfStripped(s: string)
    requires |s| > 0 ==> !IsSpace(s[0]) && !IsSpace(s[|s| - 1])
    ensures Strip(s) == s
  {
    var r := Strip(s);
    var i: nat :| StrippedAt(s, r, i);
    assert i == 0 && |r| == |s| by {
      assert |s| > 0 ==> !IsSpace(s[0]) && !IsSpace(s[|s| - 1]);
    }
  }

  /** Stripping twice is stripping once. */
  lemma StripIdempotent(s: string)
    ensures Strip(Strip(s)) == Strip(s)
  {
    var i: nat :| StrippedAt(s, Strip(s), i);
    StripOfStripped(Strip(s));
  }

  // ------------------------------------------------ startswith and `in`

  /** Python's `s.startswith(p)`. */
  predicate StartsWith(s: string, p: string) {
    |p| <= |s| && s[..|p|] == p
  }

  /** `sub` occurs in `s` at index `i`. */
  predicate OccursAt(s: string, sub: string, i: nat) {
    i + |sub| <= |s| && s[i..i + |sub|] == sub
  }

  /** Python's `sub in s` for strings. */
  predicate Contains(s: string, sub: string) {
    exists i: nat | i <= |s| :: OccursAt(s, sub, i)
  }

  /** A string that contains a text ending in `=` contains `=`. */
  lemma ContainsEq(s: string, marker: string)
    requires |marker| > 0 && marker[|marker| - 1] == '='
    requires Contains(s, marker)
    ensures '=' in s
  {
    var i: nat :| i <= |s| && OccursAt(s, marker, i);
    assert s[i + |marker| - 1] == s[i..i + |marker|][|marker| - 1];
  }

  // ------------------------------------------------------------- split

  /** `f` is element 1 of `s.split("=")`: the text between the first `=` of `s`
      and the next `=` (or the end of `s`). */
  ghost predicate SecondFieldAt(s: string, f: string, i: nat) {
    && i < |s| && s[i] == '=' && (forall k :: 0 <= k < i ==> s[k] != '=')
    && i + 1 + |f| <= |s| && s[i + 1..i + 1 + |f|] == f
    && (forall k :: 0 <= k < |f| ==> f[k] != '=')
    && (i + 1 + |f| == |s| || s[i + 1 + |f|] == '=')
  }

  /** Python's `s.split("=")[1]`, which exists exactly when `s` contains `=`. */
  function SecondField(s: string): (f: string)
    requires '=' in s
    ensures exists i: nat :: SecondFieldAt(s, f, i)
  {
    var i := IndexOf(s, '=');
    assert i < |s|;
    var rest := s[i + 1..];
    var f := rest[..IndexOf(rest, '=')];
    assert SecondFieldAt(s, f, i);
    f
  }

  // -------------------------------------------------------- splitlines

  /** Where the line starting at `i` ends: the next line boundary or the end of `s`. */
  function LineEnd(s: string, i: nat): (j: nat)
    requires i <= |s|
    ensures i <= j <= |s|
    ensures forall k :: i <= k < j ==> !IsLineBreak(s[k])
    ensures j < |s| ==> IsLineBreak(s[j])
  {
    RunEnd(s, i, c => !IsLineBreak(c))
  }

  /** Python's `s.splitlines()`: the lines of `s` without their boundaries;
      a final boundary does not start an extra empty line. */
  function SplitLines(s: string): (lines: seq<string>)
    ensures forall l, k :: l in lines && 0 <= k < |l| ==> !IsLineBreak(l[k])
    ensures |lines| <= |s|
    decreases |s|
  {
    if s == "" then []
    else
      var e := LineEnd(s, 0);
      if e == |s| then [s]
      else
        var skip := if s[e] == '\r' && e + 1 < |s| && s[e + 1] == '\n' then 2 else 1;
        [s[..e]] + SplitLines(s[e + skip..])
  }

  /** A text without line boundaries is one line. */
  lemma SplitLinesOneLine(s: string)
    requires s != ""
    requires forall k :: 0 <= k < |s| ==> !IsLineBreak(s[k])
    ensures SplitLines(s) == [s]
  {
  }

  /** A line boundary as `splitlines()` recognises it: `\r\n`, or one boundary character. */
  predicate IsBoundary(b: string) {
    b == "\r\n" || (|b| == 1 && IsLineBreak(b[0]))
  }

  /** The lines, each followed by the boundary that ends it. */
  function Joined(lines: seq<string>, breaks: seq<string>): string
    requires |lines| == |breaks|
    decreases |lines|
  {
    if lines == [] then "" else lines[0] + breaks[0] + Joined(lines[1..], breaks[1..])
  }

  /** Line `i` holds no boundary character. A line other than the last ends
      at a boundary, and a `\r` there is not followed by `\n` (the two are one
      boundary). The last line ends at a boundary or at the end of the text,
      and it is not an empty line after a final boundary. */
  predicate LineOk(lines: seq<string>, breaks: seq<string>, i: nat)
    requires |lines| == |breaks| && i < |lines|
  {
    && (forall k :: 0 <= k < |lines[i]| ==> !IsLineBreak(lines[i][k]))
    && if i + 1 < |lines| then
         IsBoundary(breaks[i]) && (breaks[i] == "\r" ==> !(lines[i + 1] == "" && breaks[i + 1] == "\n"))
       else
         (IsBoundary(breaks[i]) || breaks[i] == "") && (lines[i] != "" || breaks[i] != "")
  }

  /** `lines` are the lines of `s` and `breaks` the boundaries that end them:
      joined, they give back `s`, and every line is as `LineOk` says. */
  ghost predicate LinesOf(s: string, lines: seq<string>, breaks: seq<string>) {
    && |lines| == |breaks| && Joined(lines, breaks) == s
    && forall i :: 0 <= i < |lines| ==> LineOk(lines, breaks, i)
  }

  /** Dropping the first line keeps the conditions of the others. */
  lemma LineOkTail(lines: seq<string>, breaks: seq<string>, i: nat)
    requires |lines| == |breaks| && i + 1 < |lines|
    ensures LineOk(lines, breaks, i + 1) == LineOk(lines[1..], breaks[1..], i)
  {
    assert lines[1..][i] == lines[i + 1] && breaks[1..][i] == breaks[i + 1];
    if i + 2 < |lines| {
      assert lines[1..][i + 1] == lines[i + 2] && breaks[1..][i + 1] == breaks[i + 2];
    }
  }

  /** The lines after the first are the lines of the text after the first boundary. */
  lemma LinesOfTail(s: string, lines: seq<string>, breaks: seq<string>)
    requires LinesOf(s, lines, breaks) && lines != []
    ensures LinesOf(Joined(lines[1..], breaks[1..]), lines[1..], breaks[1..])
  {
    forall i | 0 <= i < |lines| - 1 ensures LineOk(lines[1..], breaks[1..], i) {
      LineOkTail(lines, breaks, i);
    }
  }

  /** The three parts of a concatenation are where they were put. */
  lemma Parts(a: string, b: string, c: string)
    ensures (a + b + c)[..|a|] == a && (a + b + c)[|a|..|a| + |b|] == b && (a + b + c)[|a| + |b|..] == c
    ensures forall k :: 0 <= k < |a| ==> (a + b + c)[k] == a[k]
    ensures |b| > 0 ==> (a + b + c)[|a|] == b[0]
  {
  }

  /** Cutting a text twice and joining the pieces gives it back. */
  lemma Rejoin(s: string, i: nat, j: nat)
    requires i <= j <= |s|
    ensures s[..i] + s[i..j] + s[j..] == s
  {
  }

  /** An empty first line ended by `\n` puts `\n` first. */
  lemma JoinedFirst(lines: seq<string>, breaks: seq<string>)
    requires |lines| == |breaks| && lines != []
    ensures lines[0] == "" && breaks[0] == "\n" ==> Joined(lines, breaks)[0] == '\n'
  {
  }

  /** A line and its boundary in front of the lines of `rest`. */
  lemma LinesOfCons(l: string, b: string, rest: string, tail: seq<string>, more: seq<string>)
    requires LinesOf(rest, tail, more) && LineOk([l] + tail, [b] + more, 0)
    ensures LinesOf(l + b + rest, [l] + tail, [b] + more)
  {
    var lines, breaks := [l] + tail, [b] + more;
    assert lines[1..] == tail && breaks[1..] == more;
    forall i | 0 < i < |lines| ensures LineOk(lines, breaks, i) {
      LineOkTail(lines, breaks, i - 1);
    }
  }

  /** The first line of `s`, up to its first boundary `s[e..e + skip]`, in
      front of the lines of the rest. */
  lemma LinesOfFirst(s: string, e: nat, skip: nat, tail: seq<string>, more: seq<string>)
    requires e == LineEnd(s, 0) < |s|
    requires skip == if s[e] == '\r' && e + 1 < |s| && s[e + 1] == '\n' then 2 else 1
    requires LinesOf(s[e + skip..], tail, more)
    ensures LinesOf(s, [s[..e]] + tail, [s[e..e + skip]] + more)
  {
    if tail != [] {
      JoinedFirst(tail, more);
    }
    assert LineOk([s[..e]] + tail, [s[e..e + skip]] + more, 0);
    LinesOfCons(s[..e], s[e..e + skip], s[e + skip..], tail, more);
    Rejoin(s, e, e + skip);
  }

  /** The lines `splitlines()` returns are the lines of the text, ended by
      the boundaries `breaks`. */
  lemma {:induction false} SplitLinesBreaks(s: string) returns (breaks: seq<string>)
    ensures LinesOf(s, SplitLines(s), breaks)
    decreases |s|
  {
    if s == "" {
      breaks := [];
    } else {
      var e := LineEnd(s, 0);
      if e == |s| {
        breaks := [""];
        assert Joined([s], [""]) == s + "" + Joined([], []);
        assert LineOk([s], [""], 0);
      } else {
        var skip := if s[e] == '\r' && e + 1 < |s| && s[e + 1] == '\n' then 2 else 1;
        var more := SplitLinesBreaks(s[e + skip..]);
        LinesOfFirst(s, e, skip, SplitLines(s[e + skip..]), more);
        breaks := [s[e..e + skip]] + more;
      }
    }
  }

  /** A text that starts with a line, with no `\n` right after a lone `\r`, does not start with `\n`. */
  lemma JoinedHead(lines: seq<string>, breaks: seq<string>)
    requires |lines| == |breaks| && lines != [] && LineOk(lines, breaks, 0)
    requires !(lines[0] == "" && breaks[0] == "\n")
    ensures Joined(lines, breaks) != [] && Joined(lines, breaks)[0] != '\n'
  {
    Parts(lines[0], breaks[0], Joined(lines[1..], breaks[1..]));
  }

  /** Cutting at a boundary: a line without boundary characters, then a
      boundary, then text that does not continue a lone `\r` with `\n`. */
  lemma SplitLinesCut(l: string, b: string, rest: string)
    requires forall k :: 0 <= k < |l| ==> !IsLineBreak(l[k])
    requires IsBoundary(b)
    requires b == "\r" && rest != "" ==> rest[0] != '\n'
    ensures SplitLines(l + b + rest) == [l] + SplitLines(rest)
  {
    var s := l + b + rest;
    Parts(l, b, rest);
    assert LineEnd(s, 0) == |l|;
  }

  /** `splitlines()` takes the first line of the text and goes on after its boundary. */
  lemma SplitLinesFirst(s: string, lines: seq<string>, breaks: seq<string>)
    requires LinesOf(s, lines, breaks) && lines != []
    ensures SplitLines(s) == [lines[0]] + SplitLines(Joined(lines[1..], breaks[1..]))
  {
    var tail, more := lines[1..], breaks[1..];
    assert LineOk(lines, breaks, 0);
    if breaks[0] == "" {
      assert tail == [] && Joined(tail, more) == "";
      assert s == lines[0] + "" + "";
      SplitLinesOneLine(lines[0]);
    } else {
      if tail != [] {
        assert LineOk(lines, breaks, 1);
        LineOkTail(lines, breaks, 0);
        if breaks[0] == "\r" {
          JoinedHead(tail, more);
        }
      }
      SplitLinesCut(lines[0], breaks[0], Joined(tail, more));
    }
  }

  /** Any lines of the text, in the sense of `LinesOf`, are the ones `splitlines()` returns. */
  lemma {:induction false} LinesOfUnique(s: string, lines: seq<string>, breaks: seq<string>)
    requires LinesOf(s, lines, breaks)
    ensures lines == SplitLines(s)
    decreases |lines|
  {
    if lines != [] {
      SplitLinesFirst(s, lines, breaks);
      LinesOfTail(s, lines, breaks);
      LinesOfUnique(Joined(lines[1..], breaks[1..]), lines[1..], breaks[1..]);
    }
  }

  /** `lines` is what `s.splitlines()` returns exactly when `lines` are the lines of `s`. */
  lemma SplitLinesIff(s: string, lines: seq<string>)
    ensures lines == SplitLines(s) <==> exists breaks :: LinesOf(s, lines, breaks)
  {
    if lines == SplitLines(s) {
      var breaks := SplitLinesBreaks(s);
    } else if exists breaks :: LinesOf(s, lines, breaks) {
      var breaks :| LinesOf(s, lines, breaks);
      LinesOfUnique(s, lines, breaks);
    }
  }
}
