/**
 * `parseAttributes`: the attribute text of an opening marker, such as
 * `file="a.txt" append='true'`, read into name/value pairs.
 *
 * `ScanAttributes` is the reference definition, one attribute per step;
 * the method `ParseAttributes` is the character loop of the source, proved
 * equal to it.
 */
module Attributes {
  import opened Wrappers
  import opened Text
  import opened Ast

  /** A character that may appear in an attribute name: anything but `\s` and `=`. */
  predicate IsNameChar(c: char)
  {
    !IsWhitespace(c) && c != '='
  }

  /** The position after the whitespace that starts at `i`. */
  function SkipWs(s: string, i: nat): (j: nat)
    requires i <= |s|
    ensures i <= j <= |s|
    ensures j == |s| || !IsWhitespace(s[j])
  {
    i + Span(s, i, Space)
  }

  /** The position after the attribute name that starts at `i`. */
  function NameEnd(s: string, i: nat): (j: nat)
    requires i <= |s|
    ensures i <= j <= |s|
    ensures j == |s| || !IsNameChar(s[j])
  {
    i + Span(s, i, NameChar)
  }

  /**
   * The quoted value from `i` (just after the opening quote `q`), with `acc`
   * already read: `\q` and `\\` stand for `q` and `\`, any other backslash
   * is kept, and the first unescaped `q` closes the value. The result is the
   * value and the position after the closing quote, or `|s|` when the text
   * ran out first.
   */
  function ReadValue(s: string, i: nat, q: char, acc: string): (r: (string, nat))
    requires i <= |s|
    ensures i <= r.1 <= |s|
    decreases |s| - i
  {
    if i >= |s| then (acc, i)
    else if s[i] == '\\' && i + 1 < |s| then
      if s[i + 1] == q || s[i + 1] == '\\' then ReadValue(s, i + 2, q, acc + [s[i + 1]])
      else ReadValue(s, i + 1, q, acc + [s[i]])
    else if s[i] == q then (acc, i + 1)
    else ReadValue(s, i + 1, q, acc + [s[i]])
  }

  /** Whether `name` is already declared in `attrs` (`attrs.hasOwnProperty(name)`). */
  predicate Declares(attrs: Attributes, name: string)
  {
    Lookup(attrs, name).Some?
  }

  /** A name the reader can produce: at least one character, none of them `\s` or `=`. */
  predicate IsAttributeName(name: string)
  {
    |name| >= 1 && AllIn(name, NameChar)
  }

  /**
   * One `name = "value"` starting at `i`, which is not whitespace: the name,
   * the value and the position after it. The source's check for a closing
   * quote is `attrString[i - 1] !== quote`, which also accepts a value whose
   * opening quote is the last character and a value that ends with an
   * escaped quote.
   */
  function ScanOne(s: string, i: nat): (r: Result<(string, string, nat), Reason>)
    requires i < |s|
    ensures r.Ok? ==> i < r.value.2 <= |s|
    ensures r.Ok? ==> IsAttributeName(r.value.0)
    ensures r.Err? ==> IsAttributeReason(r.error) && !r.error.DuplicateAttribute?
  {
    var n := NameEnd(s, i);
    if n == i then Err(InvalidAttributeSyntax)
    else
      var i2 := SkipWs(s, n);
      if i2 >= |s| || s[i2] != '=' then Err(ExpectedEquals)
      else
        var i3 := SkipWs(s, i2 + 1);
        if i3 >= |s| then Err(MissingAttributeValue)
        else if s[i3] != '"' && s[i3] != '\'' then Err(UnquotedAttributeValue)
        else
          var v := ReadValue(s, i3 + 1, s[i3], "");
          if s[v.1 - 1] != s[i3] then Err(UnterminatedQuotedValue)
          else
            SpanAll(s, i, NameChar);
            AllInSlice(s, i, n, NameChar);
            Ok((s[i..n], v.0, v.1))
  }

  /** The attributes declared from position `i` on, after those in `acc`. */
  function ScanAttributes(s: string, i: nat, acc: Attributes): (r: Result<Attributes, Reason>)
    requires i <= |s|
    decreases |s| - i
  {
    var i1 := SkipWs(s, i);
    if i1 >= |s| then Ok(acc)
    else
      var one := ScanOne(s, i1);
      if one.Err? then Err(one.error)
      else
        var (name, value, j) := one.value;
        if Declares(acc, name) then Err(DuplicateAttribute(name))
        else ScanAttributes(s, j, acc + [(name, value)])
  }

  /** A reason found in the attribute text becomes an error on the marker's line. */
  function AtLine(r: Result<Attributes, Reason>, lineNum: nat): (p: Result<Attributes, ParseError>)
    ensures p.Ok? <==> r.Ok?
    ensures p.Ok? ==> p.value == r.value
    ensures p.Err? ==> p.error == ParseError(lineNum, r.error)
  {
    match r
    case Ok(attrs) => Ok(attrs)
    case Err(reason) => Err(ParseError(lineNum, reason))
  }

  /** The reading depends on `i` only through the whitespace skipped at the start. */
  lemma ScanAfterWhitespace(s: string, i: nat, i': nat, acc: Attributes)
    requires i <= i' <= |s| && SkipWs(s, i) == SkipWs(s, i')
    ensures ScanAttributes(s, i, acc) == ScanAttributes(s, i', acc)
  {
  }

  /** Skipping one whitespace character does not change where the whitespace ends. */
  lemma SkipWsStep(s: string, i: nat)
    requires i < |s| && IsWhitespace(s[i])
    ensures SkipWs(s, i) == SkipWs(s, i + 1)
  {
  }

  /** Reading a name one character further does not change where it ends. */
  lemma NameEndStep(s: string, i: nat)
    requires i < |s| && IsNameChar(s[i])
    ensures NameEnd(s, i) == NameEnd(s, i + 1)
  {
  }

  /** The loop `while (i < attrString.length && /\s/.test(attrString[i])) i++`. */
  method SkipWhitespace(s: string, i0: nat) returns (i: nat)
    requires i0 <= |s|
    ensures i == SkipWs(s, i0)
  {
    i := i0;
    while i < |s| && IsWhitespace(s[i])
      invariant i0 <= i <= |s| && SkipWs(s, i) == SkipWs(s, i0)
      decreases |s| - i
    {
      SkipWsStep(s, i);
      i := i + 1;
    }
  }

  /** The loop that reads an attribute name up to whitespace or `=`. */
  method ReadName(s: string, i0: nat) returns (i: nat)
    requires i0 <= |s|
    ensures i == NameEnd(s, i0)
  {
    i := i0;
    while i < |s| && IsNameChar(s[i])
      invariant i0 <= i <= |s| && NameEnd(s, i) == NameEnd(s, i0)
      decreases |s| - i
    {
      NameEndStep(s, i);
      i := i + 1;
    }
  }

  /** The loop that reads a quoted value with escape handling, from just after the opening quote. */
  method ReadQuoted(s: string, valueStart: nat, quote: char) returns (value: string, i: nat)
    requires valueStart <= |s|
    ensures (value, i) == ReadValue(s, valueStart, quote, "")
  {
    i := valueStart;
    value := "";
    while i < |s|
      invariant valueStart <= i <= |s|
      invariant ReadValue(s, i, quote, value) == ReadValue(s, valueStart, quote, "")
      decreases |s| - i
    {
      var ch := s[i];
      if ch == '\\' && i + 1 < |s| {
        var next := s[i + 1];
        if next == quote || next == '\\' {
          value := value + [next];
          i := i + 2;
        } else {
          value := value + [ch];
          i := i + 1;
        }
      } else if ch == quote {
        i := i + 1;
        break;
      } else {
        value := value + [ch];
        i := i + 1;
      }
    }
  }

  /** One pass of the outer loop after the leading whitespace: a name, `=`, and a quoted value. */
  method ReadAttribute(s: string, nameStart: nat) returns (r: Result<(string, string, nat), Reason>)
    requires nameStart < |s|
    ensures r == ScanOne(s, nameStart)
  {
    var i := ReadName(s, nameStart);
    if i == nameStart {
      return Err(InvalidAttributeSyntax);
    }
    var name := s[nameStart..i];
    i := SkipWhitespace(s, i);
    if i >= |s| || s[i] != '=' {
      return Err(ExpectedEquals);
    }
    i := SkipWhitespace(s, i + 1);
    if i >= |s| {
      return Err(MissingAttributeValue);
    }
    var quote := s[i];
    if quote != '"' && quote != '\'' {
      return Err(UnquotedAttributeValue);
    }
    var value;
    value, i := ReadQuoted(s, i + 1, quote);
    if i > |s| || s[i - 1] != quote {
      return Err(UnterminatedQuotedValue);
    }
    return Ok((name, value, i));
  }

  /** `parseAttributes(attrString, lineNum)`: the attributes, or the error thrown. */
  method ParseAttributes(attrString: string, lineNum: nat) returns (r: Result<Attributes, ParseError>)
    ensures r == AtLine(ScanAttributes(attrString, 0, []), lineNum)
  {
    var s := attrString;
    var attrs: Attributes := [];
    var i := 0;
    while i < |s|
      invariant i <= |s|
      invariant ScanAttributes(s, i, attrs) == ScanAttributes(s, 0, [])
      decreases |s| - i
    {
      i := SkipWhitespace(s, i);
      if i >= |s| {
        break;
      }
      var one := ReadAttribute(s, i);
      if one.Err? {
        return Err(ParseError(lineNum, one.error));
      }
      var (name, value, j) := one.value;
      if Declares(attrs, name) {
        return Err(ParseError(lineNum, DuplicateAttribute(name)));
      }
      attrs := attrs + [(name, value)];
      i := j;
    }
    return Ok(attrs);
  }

  // ---------------------------------------------------------------------------
  // Properties of the reading

  /** Each reading step keeps what was read before, adds only well-formed names, and
      never adds a name twice. */
  lemma {:induction false} ScanExtends(s: string, i: nat, acc: Attributes)
    requires i <= |s|
    requires ScanAttributes(s, i, acc).Ok?
    ensures var r := ScanAttributes(s, i, acc).value;
      && |acc| <= |r| && r[..|acc|] == acc
      && (forall k :: |acc| <= k < |r| ==> IsAttributeName(r[k].0))
      && (UniqueNames(acc) ==> UniqueNames(r))
    decreases |s| - i
  {
    var i1 := SkipWs(s, i);
    if i1 < |s| {
      var (name, value, j) := ScanOne(s, i1).value;
      var acc' := acc + [(name, value)];
      ScanExtends(s, j, acc');
      var r := ScanAttributes(s, j, acc');
      assert r.value[..|acc|] == acc by {
        assert r.value[..|acc'|][..|acc|] == acc;
      }
      assert r.value[|acc|] == (name, value) by {
        assert r.value[..|acc'|][|acc|] == (name, value);
      }
      assert IsAttributeName(name);
      forall k | |acc| <= k < |r.value|
        ensures IsAttributeName(r.value[k].0)
      {
        if k > |acc| {
          assert |acc'| <= k;
        }
      }
      if UniqueNames(acc) {
        LookupFound(acc, name);
        assert !Declares(acc, name);
        assert UniqueNames(acc') by {
          forall x, y | 0 <= x < y < |acc'|
            ensures acc'[x].0 != acc'[y].0
          {
            if y == |acc| {
              assert acc[x].0 != name;
            }
          }
        }
      }
    }
  }

  /** Reading attribute text fails only for a reason about attributes. */
  lemma {:induction false} ScanErrors(s: string, i: nat, acc: Attributes)
    requires i <= |s|
    requires ScanAttributes(s, i, acc).Err?
    ensures IsAttributeReason(ScanAttributes(s, i, acc).error)
    decreases |s| - i
  {
    var i1 := SkipWs(s, i);
    var one := ScanOne(s, i1);
    if one.Ok? && !Declares(acc, one.value.0) {
      ScanErrors(s, one.value.2, acc + [(one.value.0, one.value.1)]);
    }
  }

  /** What `parseAttributes` returns never declares a name twice, and every name is well formed. */
  lemma ScanWellFormed(s: string)
    requires ScanAttributes(s, 0, []).Ok?
    ensures UniqueNames(ScanAttributes(s, 0, []).value)
    ensures forall k :: 0 <= k < |ScanAttributes(s, 0, []).value| ==>
              IsAttributeName(ScanAttributes(s, 0, []).value[k].0)
  {
    ScanExtends(s, 0, []);
  }

  // ---------------------------------------------------------------------------
  // Writing attributes back as text

  /** A value written between quotes `q`: the quote and the backslash are escaped. */
  function Escape(v: string, q: char): string
  {
    if |v| == 0 then ""
    else (if v[0] == q || v[0] == '\\' then ['\\', v[0]] else [v[0]]) + Escape(v[1..], q)
  }

  /** `name="value"`. */
  function RenderOne(a: (string, string)): string
  {
    a.0 + "=\"" + Escape(a.1, '"') + "\""
  }

  /** The attributes separated by single spaces. */
  function Render(attrs: Attributes): string
  {
    if |attrs| == 0 then ""
    else if |attrs| == 1 then RenderOne(attrs[0])
    else RenderOne(attrs[0]) + " " + Render(attrs[1..])
  }

  /**
   * The reference reading of rendered attributes: they are declared in order,
   * and the first whose name was declared before is reported.
   */
  function Declare(acc: Attributes, attrs: Attributes): Result<Attributes, Reason>
    decreases |attrs|
  {
    if |attrs| == 0 then Ok(acc)
    else if Declares(acc, attrs[0].0) then Err(DuplicateAttribute(attrs[0].0))
    else Declare(acc + [attrs[0]], attrs[1..])
  }

  /** Declaring distinct names succeeds with all of them, in order; a repeated name is reported. */
  lemma {:induction false} DeclareUnique(acc: Attributes, attrs: Attributes)
    requires UniqueNames(acc)
    ensures Declare(acc, attrs).Ok? <==> UniqueNames(acc + attrs)
    ensures Declare(acc, attrs).Ok? ==> Declare(acc, attrs).value == acc + attrs
    ensures Declare(acc, attrs).Err? ==> Declare(acc, attrs).error.DuplicateAttribute?
    decreases |attrs|
  {
    if |attrs| == 0 {
      assert acc + attrs == acc;
    } else if Declares(acc, attrs[0].0) {
      LookupFound(acc, attrs[0].0);
      var k :| 0 <= k < |acc| && acc[k].0 == attrs[0].0;
      assert (acc + attrs)[k].0 == (acc + attrs)[|acc|].0;
    } else {
      LookupFound(acc, attrs[0].0);
      var acc' := acc + [attrs[0]];
      assert acc' + attrs[1..] == acc + attrs;
      forall x, y | 0 <= x < y < |acc'|
        ensures acc'[x].0 != acc'[y].0
      {
        if y == |acc| {
          assert acc[x].0 != attrs[0].0;
        }
      }
      DeclareUnique(acc', attrs[1..]);
    }
  }

  /** An escaped value followed by its closing quote reads back as the value. */
  lemma {:induction false} ReadEscaped(s: string, i: nat, q: char, acc: string, v: string)
    requires q != '\\'
    requires MatchesAt(s, i, Escape(v, q) + [q])
    ensures ReadValue(s, i, q, acc) == (acc + v, i + |Escape(v, q)| + 1)
    decreases |v|
  {
    var t := Escape(v, q) + [q];
    assert s[i + 0] == t[0];
    if |v| == 0 {
      assert acc + v == acc;
    } else {
      var c := v[0];
      var e' := Escape(v[1..], q);
      var w := if c == q || c == '\\' then ['\\', c] else [c];
      assert t == w + (e' + [q]);
      ShiftMatch(s, i, t, |w|);
      if c == q || c == '\\' {
        assert s[i + 1] == t[1];
        ReadEscaped(s, i + 2, q, acc + [c], v[1..]);
      } else {
        ReadEscaped(s, i + 1, q, acc + [c], v[1..]);
      }
      assert acc + [c] + v[1..] == acc + v;
    }
  }

  /** What matches at `i` also matches from `i + d` with its first `d` characters dropped. */
  lemma ShiftMatch(s: string, i: nat, t: string, d: nat)
    requires MatchesAt(s, i, t) && d <= |t|
    ensures MatchesAt(s, i + d, t[d..])
  {
    forall k | 0 <= k < |t| - d
      ensures s[i + d + k] == t[d..][k]
    {
      assert s[i + (d + k)] == t[d + k];
    }
  }

  /** A value written without escapes: no quote `q`, and no backslash that the reader would take as an escape. */
  predicate Raw(v: string, q: char)
    decreases |v|
  {
    || |v| == 0
    || (&& v[0] != q
        && (v[0] == '\\' ==> |v| > 1 && v[1] != '\\')
        && Raw(v[1..], q))
  }

  /** A raw value followed by its closing quote reads back as itself, every backslash kept. */
  lemma {:induction false} ReadRaw(s: string, i: nat, q: char, acc: string, v: string)
    requires q != '\\' && Raw(v, q)
    requires MatchesAt(s, i, v + [q])
    ensures ReadValue(s, i, q, acc) == (acc + v, i + |v| + 1)
    decreases |v|
  {
    var t := v + [q];
    assert s[i + 0] == t[0];
    if |v| == 0 {
      assert acc + v == acc;
    } else {
      assert t == [v[0]] + (v[1..] + [q]);
      ShiftMatch(s, i, t, 1);
      if v[0] == '\\' {
        assert s[i + 1] == t[1] == v[1];
        assert v[1] != q by {
          assert v[1..][0] == v[1];
        }
      }
      ReadRaw(s, i + 1, q, acc + [v[0]], v[1..]);
      assert acc + [v[0]] + v[1..] == acc + v;
    }
  }

  /**
   * How one attribute is laid out: the whitespace before it, before and
   * after `=`, the quote around its value, and whether the value is escaped
   * or written as it is.
   */
  datatype Layout = Layout(lead: string, before: string, after: string, quote: char, escape: bool)

  /** The value as written between the quotes. */
  function Spelling(v: string, lay: Layout): string
  {
    if lay.escape then Escape(v, lay.quote) else v
  }

  /** `lead name before = after q value q`. */
  function WriteOne(a: (string, string), lay: Layout): string
  {
    lay.lead + (a.0 + (lay.before + ("=" + (lay.after + ([lay.quote] + (Spelling(a.1, lay) + [lay.quote]))))))
  }

  /** A layout the reader takes apart again: whitespace runs, a quote the reader accepts, and a value it reads back. */
  predicate Fits(a: (string, string), lay: Layout)
  {
    && IsAttributeName(a.0)
    && AllIn(lay.lead, Space) && AllIn(lay.before, Space) && AllIn(lay.after, Space)
    && (lay.quote == '"' || lay.quote == '\'')
    && (!lay.escape ==> Raw(a.1, lay.quote))
  }

  /** The attributes, each in its layout, then trailing text. */
  function Write(attrs: Attributes, lays: seq<Layout>, tail: string): string
    requires |lays| == |attrs|
    decreases |attrs|
  {
    if |attrs| == 0 then tail else WriteOne(attrs[0], lays[0]) + Write(attrs[1..], lays[1..], tail)
  }

  /** Every attribute fits its layout (stated by recursion, so that it unfolds one step at a time). */
  predicate AllFit(attrs: Attributes, lays: seq<Layout>)
    decreases |attrs|
  {
    |attrs| == |lays| && (|attrs| == 0 || (Fits(attrs[0], lays[0]) && AllFit(attrs[1..], lays[1..])))
  }

  lemma {:induction false} AllFitEach(attrs: Attributes, lays: seq<Layout>)
    requires |lays| == |attrs| && forall k :: 0 <= k < |attrs| ==> Fits(attrs[k], lays[k])
    ensures AllFit(attrs, lays)
    decreases |attrs|
  {
    if |attrs| > 0 {
      assert forall k :: 0 <= k < |attrs[1..]| ==> attrs[1..][k] == attrs[k + 1] && lays[1..][k] == lays[k + 1];
      AllFitEach(attrs[1..], lays[1..]);
    }
  }

  /** A run of whitespace followed by something else, or by the end, is what `SkipWs` skips. */
  lemma WhitespaceRun(s: string, i: nat, w: string)
    requires MatchesAt(s, i, w) && AllIn(w, Space)
    requires i + |w| == |s| || !IsWhitespace(s[i + |w|])
    ensures SkipWs(s, i) == i + |w|
  {
    MatchesSlice(s, i, w);
    RunExact(s, i, w, Space);
  }

  /** A written value followed by its closing quote reads back as the value. */
  lemma ReadSpelled(s: string, i: nat, acc: string, a: (string, string), lay: Layout)
    requires Fits(a, lay) && MatchesAt(s, i, Spelling(a.1, lay) + [lay.quote])
    ensures ReadValue(s, i, lay.quote, acc) == (acc + a.1, i + |Spelling(a.1, lay)| + 1)
  {
    if lay.escape {
      ReadEscaped(s, i, lay.quote, acc, a.1);
    } else {
      ReadRaw(s, i, lay.quote, acc, a.1);
    }
  }

  /** Where the pieces of a written attribute sit in the text, starting at `i`. */
  predicate Placed(s: string, i: nat, a: (string, string), lay: Layout)
  {
    var l := i + |lay.lead|;
    var n := l + |a.0|;
    var e := n + |lay.before|;
    var q := e + 1 + |lay.after|;
    && q < |s| && i + |WriteOne(a, lay)| == q + 1 + |Spelling(a.1, lay)| + 1
    && MatchesAt(s, i, lay.lead) && MatchesAt(s, l, a.0) && MatchesAt(s, n, lay.before) && s[e] == '='
    && MatchesAt(s, e + 1, lay.after) && s[q] == lay.quote
    && MatchesAt(s, q + 1, Spelling(a.1, lay) + [lay.quote])
  }

  /** A text holding a written attribute holds each of its pieces in place. */
  lemma WrittenPieces(s: string, i: nat, a: (string, string), lay: Layout)
    requires MatchesAt(s, i, WriteOne(a, lay))
    ensures Placed(s, i, a, lay)
  {
    var l := i + |lay.lead|;
    var n := l + |a.0|;
    var e := n + |lay.before|;
    var q := e + 1 + |lay.after|;
    var value := Spelling(a.1, lay) + [lay.quote];
    var quoted := [lay.quote] + value;
    MatchConcat(s, i, lay.lead, a.0 + (lay.before + ("=" + (lay.after + quoted))));
    MatchConcat(s, l, a.0, lay.before + ("=" + (lay.after + quoted)));
    MatchConcat(s, n, lay.before, "=" + (lay.after + quoted));
    MatchConcat(s, e, "=", lay.after + quoted);
    assert s[e + 0] == "="[0];
    MatchConcat(s, e + 1, lay.after, quoted);
    MatchConcat(s, q, [lay.quote], value);
    assert s[q + 0] == [lay.quote][0];
  }

  /** The whitespace before a placed attribute is skipped, and its name is read up to where it ends. */
  lemma WrittenName(s: string, i: nat, a: (string, string), lay: Layout)
    requires Fits(a, lay) && Placed(s, i, a, lay)
    ensures var l := i + |lay.lead|;
      && l < l + |a.0| < |s| && SkipWs(s, i) == l && NameEnd(s, l) == l + |a.0| && s[l..l + |a.0|] == a.0
  {
    var l := i + |lay.lead|;
    var n := l + |a.0|;
    assert s[l + 0] == a.0[0];
    WhitespaceRun(s, i, lay.lead);
    MatchesSlice(s, l, a.0);
    assert !IsNameChar(s[n]) by {
      if |lay.before| > 0 {
        assert s[n + 0] == lay.before[0];
      }
    }
    RunExact(s, l, a.0, NameChar);
  }

  /** The whitespace around the `=` of a placed attribute is skipped up to its opening quote. */
  lemma WrittenEquals(s: string, i: nat, a: (string, string), lay: Layout)
    requires Fits(a, lay) && Placed(s, i, a, lay)
    ensures var n := i + |lay.lead| + |a.0|;
            var e := n + |lay.before|;
      && SkipWs(s, n) == e && s[e] == '=' && SkipWs(s, e + 1) == e + 1 + |lay.after|
      && e + 1 + |lay.after| < |s| && s[e + 1 + |lay.after|] == lay.quote && (lay.quote == '"' || lay.quote == '\'')
  {
    var n := i + |lay.lead| + |a.0|;
    var e := n + |lay.before|;
    WhitespaceRun(s, n, lay.before);
    WhitespaceRun(s, e + 1, lay.after);
  }

  /** The value of a placed attribute is read up to and including its closing quote, which ends the attribute. */
  lemma WrittenValue(s: string, i: nat, a: (string, string), lay: Layout)
    requires Fits(a, lay) && Placed(s, i, a, lay)
    ensures var q := i + |lay.lead| + |a.0| + |lay.before| + 1 + |lay.after|;
      && i + |WriteOne(a, lay)| <= |s| && ReadValue(s, q + 1, lay.quote, "") == (a.1, i + |WriteOne(a, lay)|)
      && s[i + |WriteOne(a, lay)| - 1] == lay.quote
  {
    var q := i + |lay.lead| + |a.0| + |lay.before| + 1 + |lay.after|;
    var sp := Spelling(a.1, lay);
    ReadSpelled(s, q + 1, "", a, lay);
    assert s[q + 1 + |sp|] == (sp + [lay.quote])[|sp|];
    assert "" + a.1 == a.1;
  }

  /** One placed attribute, after the whitespace that leads it, is read back whole. */
  lemma ScanOneWritten(s: string, i: nat, a: (string, string), lay: Layout)
    requires Fits(a, lay) && Placed(s, i, a, lay)
    ensures i + |lay.lead| < |s| && SkipWs(s, i) == i + |lay.lead|
    ensures ScanOne(s, i + |lay.lead|) == Ok((a.0, a.1, i + |WriteOne(a, lay)|))
  {
    WrittenName(s, i, a, lay);
    WrittenEquals(s, i, a, lay);
    WrittenValue(s, i, a, lay);
    ScanOneOk(s, i + |lay.lead|, i + |lay.lead| + |a.0|, i + |lay.lead| + |a.0| + |lay.before|,
              i + |lay.lead| + |a.0| + |lay.before| + 1 + |lay.after|, lay.quote, a.0, a.1, i + |WriteOne(a, lay)|);
  }

  /** The path through `ScanOne` that succeeds: a name up to `n`, whitespace up to `=` at `e`,
      whitespace up to the quote at `q`, and a value read up to `j`, where the quote character stands. */
  lemma ScanOneOk(s: string, i: nat, n: nat, e: nat, q: nat, quote: char, name: string, v: string, j: nat)
    requires i < n <= e < q < |s| && NameEnd(s, i) == n && s[i..n] == name
    requires SkipWs(s, n) == e && s[e] == '=' && SkipWs(s, e + 1) == q
    requires s[q] == quote && (quote == '"' || quote == '\'')
    requires ReadValue(s, q + 1, quote, "") == (v, j) && s[j - 1] == quote
    ensures ScanOne(s, i) == Ok((name, v, j))
  {
  }

  /** One step of the reading, once the attribute after the leading whitespace is known. */
  lemma ScanStep(s: string, i: nat, l: nat, acc: Attributes, a: (string, string), j: nat)
    requires i <= |s| && SkipWs(s, i) == l < |s| && ScanOne(s, l) == Ok((a.0, a.1, j))
    ensures ScanAttributes(s, i, acc)
            == if Declares(acc, a.0) then Err(DuplicateAttribute(a.0)) else ScanAttributes(s, j, acc + [a])
  {
  }

  /** One step of the reference reading. */
  lemma DeclareStep(acc: Attributes, attrs: Attributes)
    requires |attrs| >= 1
    ensures Declare(acc, attrs)
            == if Declares(acc, attrs[0].0) then Err(DuplicateAttribute(attrs[0].0))
               else Declare(acc + [attrs[0]], attrs[1..])
  {
  }

  /** A written attribute is one step of the reading. */
  lemma ReadWrittenOne(s: string, i: nat, acc: Attributes, a: (string, string), lay: Layout)
    requires Fits(a, lay) && MatchesAt(s, i, WriteOne(a, lay))
    ensures ScanAttributes(s, i, acc)
            == if Declares(acc, a.0) then Err(DuplicateAttribute(a.0))
               else ScanAttributes(s, i + |WriteOne(a, lay)|, acc + [a])
  {
    WrittenPieces(s, i, a, lay);
    ScanOneWritten(s, i, a, lay);
    ScanStep(s, i, i + |lay.lead|, acc, a, i + |WriteOne(a, lay)|);
  }

  /** A text holding written attributes holds the first one, then the others. */
  lemma WriteFirst(s: string, i: nat, attrs: Attributes, lays: seq<Layout>, tail: string)
    requires |lays| == |attrs| > 0 && MatchesAt(s, i, Write(attrs, lays, tail))
    ensures MatchesAt(s, i, WriteOne(attrs[0], lays[0]))
    ensures MatchesAt(s, i + |WriteOne(attrs[0], lays[0])|, Write(attrs[1..], lays[1..], tail))
    ensures |Write(attrs, lays, tail)| == |WriteOne(attrs[0], lays[0])| + |Write(attrs[1..], lays[1..], tail)|
  {
    MatchConcat(s, i, WriteOne(attrs[0], lays[0]), Write(attrs[1..], lays[1..], tail));
  }

  /** Written attributes with well-formed names and layouts read back through the reference `Declare`. */
  lemma {:induction false} ScanWritten(s: string, i: nat, acc: Attributes, attrs: Attributes, lays: seq<Layout>,
                                       tail: string)
    requires AllFit(attrs, lays) && AllIn(tail, Space)
    requires MatchesAt(s, i, Write(attrs, lays, tail)) && i + |Write(attrs, lays, tail)| == |s|
    ensures ScanAttributes(s, i, acc) == Declare(acc, attrs)
    decreases |attrs|
  {
    if |attrs| == 0 {
      WhitespaceRun(s, i, tail);
    } else {
      WriteFirst(s, i, attrs, lays, tail);
      var j := i + |WriteOne(attrs[0], lays[0])|;
      if !Declares(acc, attrs[0].0) {
        ScanWritten(s, j, acc + [attrs[0]], attrs[1..], lays[1..], tail);
      }
      ScanWrittenStep(s, i, j, acc, attrs, lays);
    }
  }

  /** The first written attribute is read and declared, and the rest is read after it. */
  lemma ScanWrittenStep(s: string, i: nat, j: nat, acc: Attributes, attrs: Attributes, lays: seq<Layout>)
    requires |lays| == |attrs| >= 1 && Fits(attrs[0], lays[0])
    requires MatchesAt(s, i, WriteOne(attrs[0], lays[0])) && j == i + |WriteOne(attrs[0], lays[0])|
    requires !Declares(acc, attrs[0].0) ==>
               ScanAttributes(s, j, acc + [attrs[0]]) == Declare(acc + [attrs[0]], attrs[1..])
    ensures ScanAttributes(s, i, acc) == Declare(acc, attrs)
  {
    ReadWrittenOne(s, i, acc, attrs[0], lays[0]);
    DeclareStep(acc, attrs);
  }

  /**
   * Attributes written in any layout the reader accepts (whitespace or none
   * before each one and around `=`, either quote, the value escaped or
   * written as it is) and followed by whitespace read back through the
   * reference `Declare`: their own list exactly when no name repeats.
   */
  lemma WriteRoundTrip(attrs: Attributes, lays: seq<Layout>, tail: string)
    requires |lays| == |attrs| && forall k :: 0 <= k < |attrs| ==> Fits(attrs[k], lays[k])
    requires AllIn(tail, Space)
    ensures ScanAttributes(Write(attrs, lays, tail), 0, []) == Declare([], attrs)
    ensures UniqueNames(attrs) <==> ScanAttributes(Write(attrs, lays, tail), 0, []) == Ok(attrs)
  {
    var s := Write(attrs, lays, tail);
    assert MatchesAt(s, 0, s);
    AllFitEach(attrs, lays);
    ScanWritten(s, 0, [], attrs, lays, tail);
    DeclareUnique([], attrs);
    assert [] + attrs == attrs;
  }

  /** The layout of `Render`: double quotes, escaped values, `first` before the first attribute and a space before each other one. */
  function Spaced(first: string, n: nat): (lays: seq<Layout>)
    ensures |lays| == n
    decreases n
  {
    if n == 0 then [] else [Layout(first, "", "", '"', true)] + Spaced(" ", n - 1)
  }

  lemma {:induction false} SpacedFit(attrs: Attributes, first: string)
    requires AllIn(first, Space) && forall k :: 0 <= k < |attrs| ==> IsAttributeName(attrs[k].0)
    ensures AllFit(attrs, Spaced(first, |attrs|))
    decreases |attrs|
  {
    if |attrs| > 0 {
      var lays := Spaced(first, |attrs|);
      assert lays[1..] == Spaced(" ", |attrs| - 1);
      assert AllIn(" ", Space) by {
        assert " "[1..] == "";
      }
      assert forall k :: 0 <= k < |attrs[1..]| ==> attrs[1..][k] == attrs[k + 1];
      SpacedFit(attrs[1..], " ");
    }
  }

  /** One rendered attribute is one written in the layout of the first `Spaced` one. */
  lemma RenderFirst(a: (string, string), first: string)
    ensures first + RenderOne(a) == WriteOne(a, Layout(first, "", "", '"', true))
  {
    var v := Escape(a.1, '"');
    var close := ['"'] + (v + ['"']);
    assert "" + ("=" + ("" + close)) == "=" + close;
    assert RenderOne(a) == a.0 + ("=" + close);
  }

  lemma SpacedFirst(first: string, n: nat)
    requires n > 0
    ensures Spaced(first, n)[0] == Layout(first, "", "", '"', true)
    ensures Spaced(first, n)[1..] == Spaced(" ", n - 1)
  {
  }

  /** `Render` is `Write` in the `Spaced` layout. */
  lemma {:induction false} RenderWritten(attrs: Attributes, first: string)
    requires |attrs| > 0
    ensures first + Render(attrs) == Write(attrs, Spaced(first, |attrs|), "")
    decreases |attrs|
  {
    var lays := Spaced(first, |attrs|);
    var a := attrs[0];
    SpacedFirst(first, |attrs|);
    RenderFirst(a, first);
    WriteStep(attrs, lays, "");
    if |attrs| == 1 {
      assert Write(attrs[1..], lays[1..], "") == "";
      EmptyRight(first + RenderOne(a));
    } else {
      RenderWritten(attrs[1..], " ");
      RenderStep(attrs);
      Assoc(first, RenderOne(a), " " + Render(attrs[1..]));
    }
  }

  lemma WriteStep(attrs: Attributes, lays: seq<Layout>, tail: string)
    requires |lays| == |attrs| > 0
    ensures Write(attrs, lays, tail) == WriteOne(attrs[0], lays[0]) + Write(attrs[1..], lays[1..], tail)
  {
  }

  lemma RenderStep(attrs: Attributes)
    requires |attrs| > 1
    ensures Render(attrs) == RenderOne(attrs[0]) + (" " + Render(attrs[1..]))
  {
    Assoc(RenderOne(attrs[0]), " ", Render(attrs[1..]));
  }

  lemma Assoc(x: string, y: string, z: string)
    ensures x + (y + z) == (x + y) + z
  {
  }

  lemma EmptyRight(x: string)
    ensures x + "" == x
  {
  }

  /**
   * Writing attributes as `name="value"` separated by spaces and reading them
   * back gives them back, in order, exactly when no name is declared twice;
   * otherwise the first repeated name is reported.
   */
  lemma {:induction false} RenderRoundTrip(attrs: Attributes)
    requires forall k :: 0 <= k < |attrs| ==> IsAttributeName(attrs[k].0)
    ensures ScanAttributes(Render(attrs), 0, []) == Declare([], attrs)
    ensures UniqueNames(attrs) <==> ScanAttributes(Render(attrs), 0, []) == Ok(attrs)
  {
    var s := Render(attrs);
    assert MatchesAt(s, 0, s);
    if |attrs| == 0 {
      ScanWritten(s, 0, [], attrs, [], "");
    } else {
      RenderWritten(attrs, "");
      assert "" + s == s;
      SpacedFit(attrs, "");
      ScanWritten(s, 0, [], attrs, Spaced("", |attrs|), "");
    }
    DeclareUnique([], attrs);
    assert [] + attrs == attrs;
  }

  /** A value whose opening quote is the last character is accepted as empty. */
  lemma LoneOpeningQuote(s: string)
    requires s == "file=\""
    ensures ScanAttributes(s, 0, []) == Ok([("file", "")])
  {
    LoneOpeningQuoteOne(s);
    ScanStep(s, 0, 0, [], ("file", ""), 6);
    assert !Declares([], "file");
    ScanEnd(s, 6, [] + [("file", "")]);
    assert [] + [("file", "")] == [("file", "")];
  }

  lemma LoneOpeningQuoteOne(s: string)
    requires s == "file=\""
    ensures SkipWs(s, 0) == 0 && ScanOne(s, 0) == Ok(("file", "", 6))
  {
    SpanUnique(s, 0, Space, 0);
    SpanUnique(s, 0, NameChar, 4);
    SpanUnique(s, 4, Space, 0);
    SpanUnique(s, 5, Space, 0);
    assert ReadValue(s, 6, '"', "") == ("", 6);
    assert s[0..4] == "file";
    ScanOneOk(s, 0, 4, 4, 5, '"', "file", "", 6);
  }

  /** Nothing is left to read at the end of the text. */
  lemma ScanEnd(s: string, i: nat, acc: Attributes)
    requires i == |s|
    ensures ScanAttributes(s, i, acc) == Ok(acc)
  {
    SpanUnique(s, i, Space, 0);
  }

  /** A value that ends with an escaped quote and no closing quote is accepted. */
  lemma EscapedQuoteAtEnd(s: string)
    requires s == "a='x\\'"
    ensures ScanAttributes(s, 0, []) == Ok([("a", "x'")])
  {
    EscapedQuoteAtEndOne(s);
    ScanStep(s, 0, 0, [], ("a", "x'"), 6);
    assert !Declares([], "a");
    ScanEnd(s, 6, [] + [("a", "x'")]);
    assert [] + [("a", "x'")] == [("a", "x'")];
  }

  lemma EscapedQuoteAtEndOne(s: string)
    requires s == "a='x\\'"
    ensures SkipWs(s, 0) == 0 && ScanOne(s, 0) == Ok(("a", "x'", 6))
  {
    SpanUnique(s, 0, Space, 0);
    SpanUnique(s, 0, NameChar, 1);
    SpanUnique(s, 1, Space, 0);
    SpanUnique(s, 2, Space, 0);
    assert ReadValue(s, 6, '\'', "x'") == ("x'", 6);
    assert s[4] == '\\' && s[5] == '\'' && "x" + [s[5]] == "x'";
    assert ReadValue(s, 4, '\'', "x") == ("x'", 6);
    assert s[3] == 'x' && "" + [s[3]] == "x";
    assert ReadValue(s, 3, '\'', "") == ("x'", 6);
    assert s[0..1] == "a";
    ScanOneOk(s, 0, 1, 1, 2, '\'', "a", "x'", 6);
  }
}
