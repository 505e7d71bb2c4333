/**
 * Marker recognition without a regular-expression engine.
 *
 * The parser builds `^START(\w+)(\s+(.*))?END$` (the full marker pattern)
 * and `^START(\w+)(\s+(.*))?END` (the same without the final anchor, used to
 * spot a marker followed by trailing text), with both delimiters escaped so
 * that they match literally. The functions below return the match that
 * JavaScript's backtracking matcher returns first: `\w+` is tried from its
 * longest length downwards, then `\s+` from its longest length downwards,
 * then `.*` (which stops at line terminators) from its longest length
 * downwards, and the group `(\s+(.*))?` is tried before it is skipped.
 */
module Markers {
  import opened Wrappers
  import opened Text
  import opened Ast

  datatype Delimiters = Delimiters(start: string, end: string)

  const DefaultStart := "<---"
  const DefaultEnd := "--->"

  /** `options?.startDelimiter || '<---'` and `options?.endDelimiter || '--->'`. */
  function DelimitersOf(options: ParseOptions): (d: Delimiters)
    ensures d.start != "" && d.end != ""
    ensures d.start == (if options.startDelimiter.Some? && options.startDelimiter.value != ""
                        then options.startDelimiter.value else DefaultStart)
    ensures d.end == (if options.endDelimiter.Some? && options.endDelimiter.value != ""
                      then options.endDelimiter.value else DefaultEnd)
  {
    var start := if options.startDelimiter.Some? then options.startDelimiter.value else "";
    var end := if options.endDelimiter.Some? then options.endDelimiter.value else "";
    Delimiters(if start != "" then start else DefaultStart, if end != "" then end else DefaultEnd)
  }


  /**
   * A match: group 1 is `name`, group 3 is `attributes` (or `''` when the
   * optional group did not take part), starting at `attributesStart`, and
   * `length` is the length of the whole match.
   */
  datatype MarkerMatch = MarkerMatch(name: string, attributes: string, attributesStart: nat, length: nat)

  /** Where `(\s+(.*))?END` puts group 3 (its start and length) and where the match ends. */
  datatype Tail = Tail(groupStart: nat, groupLength: nat, matchEnd: nat)

  /** The end delimiter occurs at `q`, and with the anchor it ends the line. */
  predicate EndAt(s: string, q: nat, e: string, anchored: bool)
  {
    MatchesAt(s, q, e) && (!anchored || q + |e| == |s|)
  }

  /** `.*END` from position `b`, with `.*` taking `r` characters and then fewer. */
  function TailMatch(s: string, b: nat, r: nat, e: string, anchored: bool): (t: Option<nat>)
    requires b + r <= |s|
    ensures t.Some? ==> t.value <= r
    decreases r
  {
    if EndAt(s, b + r, e, anchored) then Some(r)
    else if r == 0 then None
    else TailMatch(s, b, r - 1, e, anchored)
  }

  /**
   * `(\s+(.*))?END` from position `a`, just after the name, with `\s+`
   * taking `j` characters and then fewer; the group is tried before it is
   * skipped (`j == 0`), and then the end delimiter must follow the name.
   */
  function AfterName(s: string, a: nat, j: nat, e: string, anchored: bool): (r: Option<Tail>)
    requires a + j <= |s|
    ensures r.Some? ==> r.value.groupStart + r.value.groupLength <= |s|
    decreases j
  {
    if j == 0 then
      if EndAt(s, a, e, anchored) then Some(Tail(a, 0, a + |e|)) else None
    else
      var b := a + j;
      var t := TailMatch(s, b, Span(s, b, Dot), e, anchored);
      if t.Some? then Some(Tail(b, t.value, b + t.value + |e|)) else AfterName(s, a, j - 1, e, anchored)
  }

  /** `(\s+(.*))?END` from position `a`, with `\s+` first taking all the whitespace there. */
  function Rest(s: string, a: nat, e: string, anchored: bool): (r: Option<Tail>)
    requires a <= |s|
  {
    AfterName(s, a, Span(s, a, Space), e, anchored)
  }

  /** The rest of the pattern matches after a name of length `j` taken from `p`. */
  predicate NameFits(s: string, p: nat, j: nat, e: string, anchored: bool)
    requires p + j <= |s|
  {
    Rest(s, p + j, e, anchored).Some?
  }

  /** A greedy `+` backtracking: the largest count from `k` down to 1 that lets the rest match. */
  function Longest(fits: nat -> bool, k: nat): (n: Option<nat>)
    ensures n.Some? ==> 1 <= n.value <= k
    decreases k
  {
    if k == 0 then None
    else if fits(k) then Some(k)
    else Longest(fits, k - 1)
  }

  /** `(\w+)(\s+(.*))?END` from position `p`, with `\w+` taking `k` characters and then
      fewer; the result is the length of the first name that lets the rest match. */
  function NameMatch(s: string, p: nat, k: nat, e: string, anchored: bool): (n: Option<nat>)
    requires p + k <= |s|
    ensures n.Some? ==> 1 <= n.value <= k
  {
    Longest(FitsAfter(s, p, e, anchored), k)
  }

  /** The name lengths after which the rest of the pattern matches. */
  function FitsAfter(s: string, p: nat, e: string, anchored: bool): nat -> bool
  {
    (j: nat) => p + j <= |s| && NameFits(s, p, j, e, anchored)
  }

  /**
   * `line.match(markerRegex)` (anchored) or `line.match(partialMarkerRegex)`
   * (not anchored), as the first match the backtracking matcher finds.
   */
  function MatchMarker(line: string, d: Delimiters, anchored: bool): (r: Option<MarkerMatch>)
  {
    if StartsWith(line, d.start) then MatchName(line, |d.start|, d.end, anchored) else None
  }

  /** `(\w+)(\s+(.*))?END` from position `p`. */
  function MatchName(line: string, p: nat, e: string, anchored: bool): (r: Option<MarkerMatch>)
    requires p <= |line|
  {
    var n := NameMatch(line, p, Span(line, p, Word), e, anchored);
    if n.Some? then MatchTail(line, p, n.value, e, anchored) else None
  }

  /** `(\s+(.*))?END` after the name `line[p..p + n]`. */
  function MatchTail(line: string, p: nat, n: nat, e: string, anchored: bool): (r: Option<MarkerMatch>)
    requires p + n <= |line|
  {
    var tail := Rest(line, p + n, e, anchored);
    if tail.Some? then
      var t := tail.value;
      Some(MarkerMatch(line[p..p + n], line[t.groupStart..t.groupStart + t.groupLength], t.groupStart, t.matchEnd))
    else None
  }

  // ---------------------------------------------------------------------------
  // What a match guarantees, and that it is the one the backtracking matcher finds first

  /** `.*` gives back characters one at a time: the first length that lets the end
      delimiter match is taken, and no longer one would have. */
  lemma {:induction false} TailMatchFirst(s: string, b: nat, r: nat, e: string, anchored: bool)
    requires b + r <= |s|
    ensures var t := TailMatch(s, b, r, e, anchored);
      && (t.Some? ==> EndAt(s, b + t.value, e, anchored))
      && (t.Some? ==> forall q :: b + t.value < q <= b + r ==> !EndAt(s, q, e, anchored))
      && (t.None? ==> forall q :: b <= q <= b + r ==> !EndAt(s, q, e, anchored))
    decreases r
  {
    if !EndAt(s, b + r, e, anchored) && r > 0 {
      TailMatchFirst(s, b, r - 1, e, anchored);
    }
  }

  /** Where `.*END` stops, the end delimiter occurs. */
  lemma {:induction false} TailMatchEnd(s: string, b: nat, r: nat, e: string, anchored: bool)
    requires b + r <= |s|
    ensures var t := TailMatch(s, b, r, e, anchored); t.Some? ==> EndAt(s, b + t.value, e, anchored)
    decreases r
  {
    if !EndAt(s, b + r, e, anchored) && r > 0 {
      TailMatchEnd(s, b, r - 1, e, anchored);
    }
  }

  /** The part of a match after the name, which ends at `a`: whitespace, then group 3
      (no line terminator in it), then the end delimiter. */
  predicate TailShape(s: string, a: nat, e: string, t: Tail)
  {
    && a <= t.groupStart && t.groupStart + t.groupLength + |e| == t.matchEnd <= |s|
    && t.groupStart - a <= Span(s, a, Space)
    && (t.groupStart == a ==> t.groupLength == 0)
    && t.groupLength <= Span(s, t.groupStart, Dot)
    && MatchesAt(s, t.groupStart + t.groupLength, e)
  }

  /** After the name come whitespace, the attribute text and the end delimiter; anchored,
      the match runs to the end of the line. */
  lemma {:induction false} AfterNameShape(s: string, a: nat, j: nat, e: string, anchored: bool)
    requires a + j <= |s| && j <= Span(s, a, Space)
    ensures var r := AfterName(s, a, j, e, anchored);
      r.Some? ==> TailShape(s, a, e, r.value) && (anchored ==> r.value.matchEnd == |s|)
    decreases j
  {
    if j > 0 {
      var b := a + j;
      var t := TailMatch(s, b, Span(s, b, Dot), e, anchored);
      TailMatchEnd(s, b, Span(s, b, Dot), e, anchored);
      if t.None? {
        AfterNameShape(s, a, j - 1, e, anchored);
      }
    }
  }

  /** The count chosen is the first one, from the largest down, that fits. */
  lemma {:induction false} LongestFirst(fits: nat -> bool, k: nat)
    ensures var n := Longest(fits, k);
      && (n.Some? ==> fits(n.value))
      && (forall j :: (if n.Some? then n.value else 0) < j <= k ==> !fits(j))
    decreases k
  {
    if k > 0 && !fits(k) {
      LongestFirst(fits, k - 1);
    }
  }

  /** The name is the longest run of word characters that lets the rest of the pattern match. */
  lemma NameMatchFirst(s: string, p: nat, k: nat, e: string, anchored: bool)
    requires p + k <= |s|
    ensures var n := NameMatch(s, p, k, e, anchored);
      && (n.Some? ==> NameFits(s, p, n.value, e, anchored))
      && (forall j :: (if n.Some? then n.value else 0) < j <= k ==> !NameFits(s, p, j, e, anchored))
  {
    var fits := FitsAfter(s, p, e, anchored);
    LongestFirst(fits, k);
    var n := Longest(fits, k);
    forall j | (if n.Some? then n.value else 0) < j <= k
      ensures !NameFits(s, p, j, e, anchored)
    {
      assert !fits(j);
    }
  }

  /** What a match of `(\s+(.*))?END` after a name of length `n` at `p` guarantees. */
  predicate TailMatchShape(line: string, p: nat, n: nat, e: string, m: MarkerMatch)
  {
    && p + n <= |line| && line[p..p + n] == m.name
    && m.attributesStart + |m.attributes| <= |line|
    && line[m.attributesStart..m.attributesStart + |m.attributes|] == m.attributes
    && TailShape(line, p + n, e, Tail(m.attributesStart, |m.attributes|, m.length))
  }

  /** What a match of the marker pattern guarantees about the line. */
  predicate MatchShape(line: string, d: Delimiters, m: MarkerMatch)
  {
    && StartsWith(line, d.start)
    && 1 <= |m.name| <= Span(line, |d.start|, Word)
    && TailMatchShape(line, |d.start|, |m.name|, d.end, m)
  }

  lemma MatchTailShape(line: string, p: nat, n: nat, e: string, anchored: bool)
    requires p + n <= |line|
    ensures var r := MatchTail(line, p, n, e, anchored);
      r.Some? ==> |r.value.name| == n && TailMatchShape(line, p, n, e, r.value) && (anchored ==> r.value.length == |line|)
  {
    AfterNameShape(line, p + n, Span(line, p + n, Space), e, anchored);
  }

  lemma MatchNameShape(line: string, p: nat, e: string, anchored: bool)
    requires p <= |line|
    ensures var r := MatchName(line, p, e, anchored);
      r.Some? ==> 1 <= |r.value.name| <= Span(line, p, Word) && TailMatchShape(line, p, |r.value.name|, e, r.value)
                  && (anchored ==> r.value.length == |line|)
  {
    var n := NameMatch(line, p, Span(line, p, Word), e, anchored);
    if n.Some? {
      MatchTailShape(line, p, n.value, e, anchored);
    }
  }

  /** Every match has the shape of the pattern, and the anchored one spans the whole line. */
  lemma MatchMarkerShape(line: string, d: Delimiters, anchored: bool)
    ensures var r := MatchMarker(line, d, anchored);
      r.Some? ==> MatchShape(line, d, r.value) && (anchored ==> r.value.length == |line|)
  {
    if StartsWith(line, d.start) {
      MatchNameShape(line, |d.start|, d.end, anchored);
    }
  }

  // ---------------------------------------------------------------------------
  // Rendered marker lines are recognised

  /** The marker line `START NAME END`, or `START NAME ATTRS END` with a single space. */
  function MarkerLine(d: Delimiters, name: string, attrs: string): string
  {
    d.start + name + (if attrs == "" then "" else " " + attrs) + d.end
  }

  /** A name `\w+` can match. */
  predicate IsWord(name: string)
  {
    |name| >= 1 && AllWordChars(name)
  }

  predicate AllWordChars(s: string)
  {
    |s| == 0 || (IsWordChar(s[0]) && AllWordChars(s[1..]))
  }

  /** `\w+` from `b` takes exactly a word found there that is not followed by a word character. */
  lemma {:induction false} WordRunExact(s: string, b: nat, t: string)
    requires b + |t| <= |s| && s[b..b + |t|] == t && AllWordChars(t)
    requires b + |t| == |s| || !IsWordChar(s[b + |t|])
    ensures Span(s, b, Word) == |t|
    decreases |t|
  {
    if |t| > 0 {
      assert s[b] == t[0];
      assert s[b + 1..b + |t|] == t[1..];
      WordRunExact(s, b + 1, t[1..]);
    }
  }

  /** A delimiter that cannot be mistaken for part of a name or of the whitespace before attributes. */
  predicate SeparableEnd(e: string)
  {
    |e| >= 1 && !IsWordChar(e[0]) && !IsWhitespace(e[0])
  }

  /** Text that can stand as the attribute part of a marker line: `.*` runs over all of it. */
  predicate AttributeText(attrs: string)
  {
    (attrs != "" ==> !IsWhitespace(attrs[0])) && NoLineTerminator(attrs)
  }

  /** No character of `s` is a line terminator, so `.*` can run over all of it. */
  predicate NoLineTerminator(s: string)
  {
    |s| == 0 || (!IsLineTerminator(s[0]) && NoLineTerminator(s[1..]))
  }

  /** `.*` from `b` runs at least over text without line terminators found there. */
  lemma {:induction false} DotRunCovers(s: string, b: nat, t: string)
    requires b + |t| <= |s| && s[b..b + |t|] == t && NoLineTerminator(t)
    ensures |t| <= Span(s, b, Dot)
    decreases |t|
  {
    if |t| > 0 {
      assert s[b] == t[0];
      assert s[b + 1..b + |t|] == t[1..];
      DotRunCovers(s, b + 1, t[1..]);
    }
  }

  /** With no attribute text, the end delimiter right after the name closes the match. */
  lemma AfterNameBare(s: string, a: nat, e: string)
    requires SeparableEnd(e) && a + |e| == |s| && MatchesAt(s, a, e)
    ensures Rest(s, a, e, true) == Some(Tail(a, 0, |s|))
  {
    assert s[a + 0] == e[0];
    SpanUnique(s, a, Space, 0);
  }

  /** With attribute text after one space, group 3 is exactly that text. */
  lemma AfterNameAttributes(s: string, a: nat, e: string, attrs: string)
    requires SeparableEnd(e) && AttributeText(attrs) && attrs != ""
    requires a + 1 + |attrs| + |e| == |s| && s[a] == ' '
    requires s[a + 1..a + 1 + |attrs|] == attrs
    requires MatchesAt(s, a + 1 + |attrs|, e)
    ensures Rest(s, a, e, true) == Some(Tail(a + 1, |attrs|, |s|))
  {
    var b := a + 1;
    assert s[b] == attrs[0];
    SpanUnique(s, a, Space, 1);
    var run := Span(s, b, Dot);
    DotRunCovers(s, b, attrs);
    TailMatchAnchored(s, b, run, e, |attrs|);
    assert AfterName(s, a, 1, e, true) == Some(Tail(b, |attrs|, |s|));
  }

  /** Anchored, `.*END` can only stop where the end delimiter finishes the line. */
  lemma {:induction false} TailMatchAnchored(s: string, b: nat, r: nat, e: string, v: nat)
    requires v <= r && b + r <= |s| && b + v + |e| == |s| && MatchesAt(s, b + v, e)
    ensures TailMatch(s, b, r, e, true) == Some(v)
    decreases r
  {
    if r > v {
      TailMatchAnchored(s, b, r - 1, e, v);
    }
  }

  /** A word followed by a recognised tail is taken whole as the name. */
  lemma MatchMarkerName(s: string, d: Delimiters, name: string, a: nat, t: Tail, attrs: string)
    requires a == |d.start| + |name|
    requires StartsWith(s, d.start) && IsWord(name)
    requires a < |s| && s[|d.start|..a] == name && !IsWordChar(s[a])
    requires Rest(s, a, d.end, true) == Some(t)
    requires t.groupStart + t.groupLength <= |s| && s[t.groupStart..t.groupStart + t.groupLength] == attrs
    ensures MatchMarker(s, d, true) == Some(MarkerMatch(name, attrs, t.groupStart, t.matchEnd))
  {
    var p := |d.start|;
    WordRunExact(s, p, name);
    assert NameMatch(s, p, |name|, d.end, true) == Some(|name|);
    MatchTailIs(s, p, |name|, d.end, t, attrs);
  }

  /** The match after the name is assembled from the tail that `AfterName` found. */
  lemma MatchTailIs(s: string, p: nat, n: nat, e: string, t: Tail, attrs: string)
    requires p + n <= |s| && Rest(s, p + n, e, true) == Some(t)
    requires t.groupStart + t.groupLength <= |s| && s[t.groupStart..t.groupStart + t.groupLength] == attrs
    ensures MatchTail(s, p, n, e, true) == Some(MarkerMatch(s[p..p + n], attrs, t.groupStart, t.matchEnd))
  {
  }

  /**
   * Completeness of the anchored matcher on rendered markers: with any
   * delimiters whose end cannot run into the name, the rendered line is
   * recognised with the same name and attribute text.
   */
  lemma MatchMarkerLine(d: Delimiters, name: string, attrs: string)
    requires IsWord(name) && AttributeText(attrs) && SeparableEnd(d.end)
    ensures MatchMarker(MarkerLine(d, name, attrs), d, true).Some?
    ensures MatchMarker(MarkerLine(d, name, attrs), d, true).value.name == name
    ensures MatchMarker(MarkerLine(d, name, attrs), d, true).value.attributes == attrs
  {
    var line := MarkerLine(d, name, attrs);
    if attrs == "" {
      BareLinePieces(d, name, line);
      MatchBareMarker(d, name, line);
    } else {
      AttributeLinePieces(d, name, attrs, line);
      MatchMarkerWithAttributes(d, name, attrs, line);
    }
  }

  /** Where the start delimiter, the name and the end delimiter sit in a bare marker line. */
  predicate BareLayout(line: string, d: Delimiters, name: string)
  {
    var a := |d.start| + |name|;
    StartsWith(line, d.start) && a + |d.end| == |line| && line[|d.start|..a] == name
    && MatchesAt(line, a, d.end)
  }

  /** Where the name, the single space, the attribute text and the end delimiter sit. */
  predicate AttributeLayout(line: string, d: Delimiters, name: string, attrs: string)
  {
    var a := |d.start| + |name|;
    && StartsWith(line, d.start) && a + 1 + |attrs| + |d.end| == |line|
    && line[|d.start|..a] == name && line[a] == ' '
    && line[a + 1..a + 1 + |attrs|] == attrs && MatchesAt(line, a + 1 + |attrs|, d.end)
  }

  lemma MatchBareMarker(d: Delimiters, name: string, line: string)
    requires IsWord(name) && SeparableEnd(d.end) && BareLayout(line, d, name)
    ensures MatchMarker(line, d, true) == Some(MarkerMatch(name, "", |d.start| + |name|, |line|))
  {
    var a := |d.start| + |name|;
    AfterNameBare(line, a, d.end);
    assert line[a + 0] == d.end[0];
    assert line[a..a + 0] == "";
    MatchMarkerName(line, d, name, a, Tail(a, 0, |line|), "");
  }

  lemma MatchMarkerWithAttributes(d: Delimiters, name: string, attrs: string, line: string)
    requires IsWord(name) && AttributeText(attrs) && attrs != "" && SeparableEnd(d.end)
    requires AttributeLayout(line, d, name, attrs)
    ensures MatchMarker(line, d, true) == Some(MarkerMatch(name, attrs, |d.start| + |name| + 1, |line|))
  {
    var a := |d.start| + |name|;
    AfterNameAttributes(line, a, d.end, attrs);
    MatchMarkerName(line, d, name, a, Tail(a + 1, |attrs|, |line|), attrs);
  }

  lemma BareLinePieces(d: Delimiters, name: string, line: string)
    requires line == d.start + name + d.end
    ensures BareLayout(line, d, name)
  {
    var a := |d.start| + |name|;
    MarkerLinePieces(d, name, "");
    assert d.start + name + "" + d.end == line;
    SliceMatches(line, a, d.end);
  }

  lemma AttributeLinePieces(d: Delimiters, name: string, attrs: string, line: string)
    requires line == d.start + name + (" " + attrs) + d.end
    ensures AttributeLayout(line, d, name, attrs)
  {
    var a := |d.start| + |name|;
    MarkerLinePieces(d, name, " " + attrs);
    RenderedAttributes(line, a, d.end, attrs);
  }

  /** The rendered line is the start delimiter, the name, and then the rest. */
  lemma MarkerLinePieces(d: Delimiters, name: string, sep: string)
    ensures var line, a := d.start + name + sep + d.end, |d.start| + |name|;
      && StartsWith(line, d.start) && a <= |line|
      && line[|d.start|..a] == name && line[a..] == sep + d.end
  {
    var line := d.start + name + sep + d.end;
    assert line == (d.start + name) + (sep + d.end);
    assert line[..|d.start|] == d.start;
    SliceMatches(line, 0, d.start);
  }

  /** After the name come one space, the attribute text, and the end delimiter. */
  lemma RenderedAttributes(line: string, a: nat, e: string, attrs: string)
    requires a <= |line| && line[a..] == " " + attrs + e
    ensures a + 1 + |attrs| + |e| == |line| && line[a] == ' '
    ensures line[a + 1..a + 1 + |attrs|] == attrs
    ensures MatchesAt(line, a + 1 + |attrs|, e)
  {
    var rest := " " + attrs + e;
    assert line[a] == rest[0];
    assert line[a + 1..a + 1 + |attrs|] == rest[1..1 + |attrs|];
    assert line[a + 1 + |attrs|..] == rest[1 + |attrs|..];
    SliceMatches(line, a + 1 + |attrs|, e);
  }
}
