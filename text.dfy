/**
 * The pieces of the JavaScript string library that the parser relies on:
 * the `\s`, `\w` and `.` character classes, `startsWith`, `trim`,
 * `Array.prototype.join('\n')` and `String.prototype.split(/\r\n|\r|\n/)`.
 */
module Text {

  /** JavaScript `\s`: the WhiteSpace and LineTerminator code points (also what `trim` removes). */
  predicate IsWhitespace(c: char)
  {
    c == '\t' || c == '\n' || c == '\U{B}' || c == '\U{C}' || c == '\r' || c == ' '
    || c == '\U{A0}' || c == '\U{1680}' || ('\U{2000}' <= c <= '\U{200A}')
    || c == '\U{2028}' || c == '\U{2029}' || c == '\U{202F}' || c == '\U{205F}'
    || c == '\U{3000}' || c == '\U{FEFF}'
  }

  /** The characters that JavaScript `.` does not match (no `s` flag). */
  predicate IsLineTerminator(c: char)
  {
    c == '\n' || c == '\r' || c == '\U{2028}' || c == '\U{2029}'
  }

  /** JavaScript `\w` without the `u`/`i` flags: `[A-Za-z0-9_]`. */
  predicate IsWordChar(c: char)
  {
    ('A' <= c <= 'Z') || ('a' <= c <= 'z') || ('0' <= c <= '9') || c == '_'
  }

  /** `s.trim()` is the empty string. */
  predicate IsBlank(s: string)
  {
    forall k :: 0 <= k < |s| ==> IsWhitespace(s[k])
  }

  /** `s.startsWith(prefix)`. */
  predicate StartsWith(s: string, prefix: string)
  {
    MatchesAt(s, 0, prefix)
  }

  /** `p` occurs in `s` at position `i` (stated character by character, without slicing `s`). */
  predicate MatchesAt(s: string, i: nat, p: string)
  {
    i + |p| <= |s| && forall k :: 0 <= k < |p| ==> s[i + k] == p[k]
  }

  /** An occurrence, stated as a slice. */
  lemma SliceMatches(s: string, i: nat, p: string)
    requires i + |p| <= |s| && s[i..i + |p|] == p
    ensures MatchesAt(s, i, p)
  {
    forall k | 0 <= k < |p|
      ensures s[i + k] == p[k]
    {
      assert s[i..i + |p|][k] == s[i + k];
    }
  }

  /** An occurrence gives the slice. */
  lemma MatchesSlice(s: string, i: nat, p: string)
    requires MatchesAt(s, i, p)
    ensures s[i..i + |p|] == p
  {
    forall k | 0 <= k < |p|
      ensures s[i..i + |p|][k] == p[k]
    {
    }
  }

  /** An occurrence of `x + y` is an occurrence of `x` followed by one of `y`. */
  lemma MatchConcat(s: string, i: nat, x: string, y: string)
    requires MatchesAt(s, i, x + y)
    ensures MatchesAt(s, i, x) && MatchesAt(s, i + |x|, y)
  {
    forall k | 0 <= k < |x|
      ensures s[i + k] == x[k]
    {
      assert (x + y)[k] == x[k];
    }
    forall k | 0 <= k < |y|
      ensures s[i + |x| + k] == y[k]
    {
      assert s[i + (|x| + k)] == (x + y)[|x| + k];
    }
  }

  /** The character classes the scanners skip over: `\s`, `\w`, `.`, and `[^\s=]`. */
  datatype CharClass = Space | Word | Dot | NameChar

  predicate InClass(c: char, cls: CharClass)
  {
    match cls
    case Space => IsWhitespace(c)
    case Word => IsWordChar(c)
    case Dot => !IsLineTerminator(c)
    case NameChar => !IsWhitespace(c) && c != '='
  }

  /** The length of the longest run of characters of class `cls` that starts at `i`. */
  function Span(s: string, i: nat, cls: CharClass): (n: nat)
    requires i <= |s|
    ensures i + n <= |s|
    ensures i + n == |s| || !InClass(s[i + n], cls)
    decreases |s| - i
  {
    if i == |s| || !InClass(s[i], cls) then 0 else 1 + Span(s, i + 1, cls)
  }

  /** Every character of the run is in the class. */
  lemma {:induction false} SpanAll(s: string, i: nat, cls: CharClass)
    requires i <= |s|
    ensures forall k :: i <= k < i + Span(s, i, cls) ==> InClass(s[k], cls)
    decreases |s| - i
  {
    if i < |s| && InClass(s[i], cls) {
      SpanAll(s, i + 1, cls);
    }
  }

  /** A run is maximal: any shorter length stops before a character that is still in the class. */
  lemma {:induction false} SpanUnique(s: string, i: nat, cls: CharClass, n: nat)
    requires i + n <= |s|
    requires forall k :: i <= k < i + n ==> InClass(s[k], cls)
    requires i + n == |s| || !InClass(s[i + n], cls)
    ensures Span(s, i, cls) == n
    decreases n
  {
    if n > 0 {
      SpanUnique(s, i + 1, cls, n - 1);
    }
  }

  /** Every character of `t` is in the class (stated by recursion, so that it unfolds one step at a time). */
  predicate AllIn(t: string, cls: CharClass)
  {
    |t| == 0 || (InClass(t[0], cls) && AllIn(t[1..], cls))
  }

  /** A run from `b` covers at least a text of the class found there. */
  lemma {:induction false} RunCovers(s: string, b: nat, t: string, cls: CharClass)
    requires b + |t| <= |s| && s[b..b + |t|] == t && AllIn(t, cls)
    ensures |t| <= Span(s, b, cls)
    decreases |t|
  {
    if |t| > 0 {
      assert s[b] == t[0];
      assert s[b + 1..b + |t|] == t[1..];
      RunCovers(s, b + 1, t[1..], cls);
    }
  }

  /** A run from `b` is exactly a text of the class found there that is not followed by the class. */
  lemma {:induction false} RunExact(s: string, b: nat, t: string, cls: CharClass)
    requires b + |t| <= |s| && s[b..b + |t|] == t && AllIn(t, cls)
    requires b + |t| == |s| || !InClass(s[b + |t|], cls)
    ensures Span(s, b, cls) == |t|
    decreases |t|
  {
    if |t| > 0 {
      assert s[b] == t[0];
      assert s[b + 1..b + |t|] == t[1..];
      RunExact(s, b + 1, t[1..], cls);
    }
  }

  /** The text between `i` and `j` is of the class when each of its characters is. */
  lemma {:induction false} AllInSlice(s: string, i: nat, j: nat, cls: CharClass)
    requires i <= j <= |s|
    requires forall k :: i <= k < j ==> InClass(s[k], cls)
    ensures AllIn(s[i..j], cls)
    decreases j - i
  {
    if i < j {
      assert s[i..j][0] == s[i];
      assert s[i..j][1..] == s[i + 1..j];
      AllInSlice(s, i + 1, j, cls);
    }
  }

  // ---------------------------------------------------------------------------
  // Array.prototype.join('\n')

  function Join(lines: seq<string>): string
  {
    if |lines| == 0 then ""
    else if |lines| == 1 then lines[0]
    else lines[0] + "\n" + Join(lines[1..])
  }

  /** A buffer that gets one more line: the joined text grows by a newline and that line. */
  lemma {:induction false} JoinSnoc(lines: seq<string>, line: string)
    requires |lines| > 0
    ensures Join(lines + [line]) == Join(lines) + "\n" + line
    decreases |lines|
  {
    if |lines| == 1 {
      assert lines + [line] == [lines[0], line];
    } else {
      assert (lines + [line])[1..] == lines[1..] + [line];
      JoinSnoc(lines[1..], line);
    }
  }

  /** The newlines of the joined text are exactly the separators: one fewer than the lines. */
  function CountNewlines(s: string): nat
  {
    if |s| == 0 then 0 else (if s[0] == '\n' then 1 else 0) + CountNewlines(s[1..])
  }

  lemma {:induction false} CountNewlinesAppend(a: string, b: string)
    ensures CountNewlines(a + b) == CountNewlines(a) + CountNewlines(b)
    decreases |a|
  {
    if |a| == 0 {
      assert a + b == b;
    } else {
      assert (a + b)[1..] == a[1..] + b;
      CountNewlinesAppend(a[1..], b);
    }
  }

  predicate NoLineBreak(s: string)
  {
    forall k :: 0 <= k < |s| ==> s[k] != '\n' && s[k] != '\r'
  }

  lemma {:induction false} NoLineBreakCount(s: string)
    requires NoLineBreak(s)
    ensures CountNewlines(s) == 0
    decreases |s|
  {
    if |s| > 0 {
      NoLineBreakCount(s[1..]);
    }
  }

  /** Joining `n` lines that have no line breaks gives a text with exactly `n - 1` newlines:
      blank lines before END survive as trailing newlines, one per line. */
  lemma {:induction false} JoinNewlineCount(lines: seq<string>)
    requires |lines| > 0
    requires forall k :: 0 <= k < |lines| ==> NoLineBreak(lines[k])
    ensures CountNewlines(Join(lines)) == |lines| - 1
    decreases |lines|
  {
    NoLineBreakCount(lines[0]);
    if |lines| > 1 {
      JoinNewlineCount(lines[1..]);
      CountNewlinesAppend(lines[0], "\n");
      CountNewlinesAppend(lines[0] + "\n", Join(lines[1..]));
    }
  }

  // ---------------------------------------------------------------------------
  // String.prototype.split(/\r\n|\r|\n/)

  /** The lines of `text`: the alternation tries `\r\n` before `\r`, so CRLF is one separator. */
  function SplitLines(text: string): (lines: seq<string>)
    ensures |lines| >= 1
  {
    SplitFrom(text, "")
  }

  /** Splits `text`, where `current` is the part of the first line already read. */
  function SplitFrom(text: string, current: string): (lines: seq<string>)
    ensures |lines| >= 1
    decreases |text|
  {
    if |text| == 0 then [current]
    else if text[0] == '\r' && |text| > 1 && text[1] == '\n' then [current] + SplitFrom(text[2..], "")
    else if text[0] == '\r' || text[0] == '\n' then [current] + SplitFrom(text[1..], "")
    else SplitFrom(text[1..], current + [text[0]])
  }

  /** The reference for line-ending normalisation: every CRLF, CR and LF becomes LF. */
  function NormalizeNewlines(text: string): string
    decreases |text|
  {
    if |text| == 0 then ""
    else if text[0] == '\r' && |text| > 1 && text[1] == '\n' then "\n" + NormalizeNewlines(text[2..])
    else if text[0] == '\r' || text[0] == '\n' then "\n" + NormalizeNewlines(text[1..])
    else [text[0]] + NormalizeNewlines(text[1..])
  }

  lemma {:induction false} SplitFromNoBreak(text: string, current: string)
    requires NoLineBreak(current)
    ensures forall k :: 0 <= k < |SplitFrom(text, current)| ==> NoLineBreak(SplitFrom(text, current)[k])
    decreases |text|
  {
    if |text| == 0 {
    } else if text[0] == '\r' && |text| > 1 && text[1] == '\n' {
      SplitFromNoBreak(text[2..], "");
    } else if text[0] == '\r' || text[0] == '\n' {
      SplitFromNoBreak(text[1..], "");
    } else {
      assert NoLineBreak(current + [text[0]]);
      SplitFromNoBreak(text[1..], current + [text[0]]);
    }
  }

  /** No line produced by the split contains a line break. */
  lemma SplitLinesNoBreak(text: string)
    ensures forall k :: 0 <= k < |SplitLines(text)| ==> NoLineBreak(SplitLines(text)[k])
  {
    SplitFromNoBreak(text, "");
  }

  lemma JoinCons(line: string, lines: seq<string>)
    requires |lines| > 0
    ensures Join([line] + lines) == line + "\n" + Join(lines)
  {
    assert ([line] + lines)[1..] == lines;
  }

  lemma {:induction false} JoinSplitFrom(text: string, current: string)
    ensures Join(SplitFrom(text, current)) == current + NormalizeNewlines(text)
    decreases |text|
  {
    if |text| == 0 {
    } else if text[0] == '\r' && |text| > 1 && text[1] == '\n' {
      JoinSplitFrom(text[2..], "");
      JoinCons(current, SplitFrom(text[2..], ""));
    } else if text[0] == '\r' || text[0] == '\n' {
      JoinSplitFrom(text[1..], "");
      JoinCons(current, SplitFrom(text[1..], ""));
    } else {
      JoinSplitFrom(text[1..], current + [text[0]]);
    }
  }

  /** Joining the split lines with `\n` is the text with its line endings normalised. */
  lemma JoinSplitLines(text: string)
    ensures Join(SplitLines(text)) == NormalizeNewlines(text)
  {
    JoinSplitFrom(text, "");
  }

  lemma {:induction false} SplitFromPlain(line: string, rest: string, current: string)
    requires NoLineBreak(line)
    ensures SplitFrom(line + rest, current) == SplitFrom(rest, current + line)
    decreases |line|
  {
    if |line| == 0 {
      assert line + rest == rest;
      assert current + line == current;
    } else {
      assert (line + rest)[0] == line[0];
      assert (line + rest)[1..] == line[1..] + rest;
      SplitFromPlain(line[1..], rest, current + [line[0]]);
      assert current + [line[0]] + line[1..] == current + line;
    }
  }

  lemma {:induction false} SplitFromJoin(lines: seq<string>)
    requires |lines| > 0
    requires forall k :: 0 <= k < |lines| ==> NoLineBreak(lines[k])
    ensures SplitFrom(Join(lines), "") == lines
    decreases |lines|
  {
    if |lines| == 1 {
      SplitFromPlain(lines[0], "", "");
      assert lines[0] + "" == lines[0];
      assert "" + lines[0] == lines[0];
    } else {
      SplitFromJoin(lines[1..]);
      var tail := "\n" + Join(lines[1..]);
      assert Join(lines) == lines[0] + tail;
      SplitFromPlain(lines[0], tail, "");
      assert "" + lines[0] == lines[0];
      assert tail[1..] == Join(lines[1..]);
      assert lines == [lines[0]] + lines[1..];
    }
  }

  /** Splitting lines that were joined with `\n` gives the lines back. */
  lemma SplitJoin(lines: seq<string>)
    requires |lines| > 0
    requires forall k :: 0 <= k < |lines| ==> NoLineBreak(lines[k])
    ensures SplitLines(Join(lines)) == lines
  {
    SplitFromJoin(lines);
  }

  // ---------------------------------------------------------------------------
  // Number formatting for the `Line N: ...` messages

  function DigitChar(d: nat): char
    requires d < 10
  {
    ('0' as int + d) as char
  }

  /** The decimal digits of `n`, as `${n}` prints it. */
  function NatToString(n: nat): (s: string)
    ensures |s| >= 1
    ensures forall k :: 0 <= k < |s| ==> '0' <= s[k] <= '9'
    ensures n > 0 ==> s[0] != '0'
    decreases n
  {
    if n < 10 then [DigitChar(n)] else NatToString(n / 10) + [DigitChar(n % 10)]
  }

  /** The value of a string of decimal digits. */
  function DigitsValue(s: string): nat
    requires forall k :: 0 <= k < |s| ==> '0' <= s[k] <= '9'
  {
    if |s| == 0 then 0 else 10 * DigitsValue(s[..|s| - 1]) + (s[|s| - 1] as int - '0' as int)
  }

  /** Printing a line number and reading it back gives the number. */
  lemma {:induction false} NatToStringValue(n: nat)
    ensures DigitsValue(NatToString(n)) == n
    decreases n
  {
    if n >= 10 {
      NatToStringValue(n / 10);
      var s, p := NatToString(n), NatToString(n / 10);
      assert s == p + [DigitChar(n % 10)];
      assert s[..|s| - 1] == p;
      assert DigitsValue(s) == 10 * DigitsValue(p) + n % 10;
    }
  }
}
