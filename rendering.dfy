/**
 * Writing operations back as CSL text, and the round trip: the text written
 * for a list of operations parses back to exactly those operations.
 *
 * An operation is written as its opening marker (its attributes in
 * `name="value"` form), its content lines and an END marker; a SEARCH as
 * its pattern lines, an optional TO section, a REPLACE section and END; a
 * TASKS as its inner operations between its markers. The round trip needs
 * the operations to be at the lines where they are written (`Placed`), and
 * content the parser reads as content (`Renderable`).
 */
module Rendering {
  import opened Wrappers
  import opened Text
  import opened Ast
  import opened Markers
  import opened Machine
  import Scan = Attributes

  // ---------------------------------------------------------------------------
  // Characters

  predicate NoCarriageReturn(s: string)
  {
    forall k :: 0 <= k < |s| ==> s[k] != '\r'
  }

  lemma {:induction false} NormalizePlain(s: string)
    requires NoCarriageReturn(s)
    ensures NormalizeNewlines(s) == s
    decreases |s|
  {
    if |s| > 0 {
      assert NoCarriageReturn(s[1..]) by {
        forall k | 0 <= k < |s[1..]|
          ensures s[1..][k] != '\r'
        {
          assert s[1..][k] == s[k + 1];
        }
      }
      NormalizePlain(s[1..]);
      assert [s[0]] + s[1..] == s;
    }
  }

  /** Text without CR is given back by joining its lines with LF. */
  lemma JoinLinesOf(c: string)
    requires NoCarriageReturn(c)
    ensures Join(SplitLines(c)) == c
  {
    JoinSplitLines(c);
    NormalizePlain(c);
  }

  lemma {:induction false} NoTerminatorConcat(a: string, b: string)
    requires NoLineTerminator(a) && NoLineTerminator(b)
    ensures NoLineTerminator(a + b)
    decreases |a|
  {
    if |a| == 0 {
      assert a + b == b;
    } else {
      assert (a + b)[0] == a[0];
      assert (a + b)[1..] == a[1..] + b;
      NoTerminatorConcat(a[1..], b);
    }
  }

  lemma {:induction false} NoTerminatorNoBreak(s: string)
    requires NoLineTerminator(s)
    ensures NoLineBreak(s)
    decreases |s|
  {
    if |s| > 0 {
      NoTerminatorNoBreak(s[1..]);
      forall k | 0 <= k < |s|
        ensures s[k] != '\n' && s[k] != '\r'
      {
        if k > 0 {
          assert s[k] == s[1..][k - 1];
        }
      }
    }
  }

  lemma NoBreakConcat(a: string, b: string)
    requires NoLineBreak(a) && NoLineBreak(b)
    ensures NoLineBreak(a + b)
  {
    forall k | 0 <= k < |a + b|
      ensures (a + b)[k] != '\n' && (a + b)[k] != '\r'
    {
      if k < |a| {
        assert (a + b)[k] == a[k];
      } else {
        assert (a + b)[k] == b[k - |a|];
      }
    }
  }

  lemma {:induction false} NameNoTerminator(name: string)
    requires AllIn(name, NameChar)
    ensures NoLineTerminator(name)
    decreases |name|
  {
    if |name| > 0 {
      NameNoTerminator(name[1..]);
    }
  }

  lemma {:induction false} WordNoBreak(name: string)
    requires AllWordChars(name)
    ensures NoLineBreak(name)
    decreases |name|
  {
    if |name| > 0 {
      WordNoBreak(name[1..]);
      assert name == [name[0]] + name[1..];
      NoBreakConcat([name[0]], name[1..]);
    }
  }

  // ---------------------------------------------------------------------------
  // Attributes

  /** Attributes that can be written on a marker line and read back. */
  predicate Writable(attrs: Attributes)
  {
    && UniqueNames(attrs)
    && forall k :: 0 <= k < |attrs| ==> Scan.IsAttributeName(attrs[k].0) && NoLineTerminator(attrs[k].1)
  }

  lemma {:induction false} EscapeNoTerminator(v: string, q: char)
    requires NoLineTerminator(v) && !IsLineTerminator(q)
    ensures NoLineTerminator(Scan.Escape(v, q))
    decreases |v|
  {
    if |v| > 0 {
      EscapeNoTerminator(v[1..], q);
      var piece := if v[0] == q || v[0] == '\\' then ['\\', v[0]] else [v[0]];
      assert NoLineTerminator(piece) by {
        assert piece[|piece| - 1] == v[0];
        assert piece[1..] == [] || piece[1..] == [v[0]];
      }
      NoTerminatorConcat(piece, Scan.Escape(v[1..], q));
    }
  }

  lemma RenderOneNoTerminator(a: (string, string))
    requires Scan.IsAttributeName(a.0) && NoLineTerminator(a.1)
    ensures NoLineTerminator(Scan.RenderOne(a))
    ensures |Scan.RenderOne(a)| > 0 && !IsWhitespace(Scan.RenderOne(a)[0])
  {
    NameNoTerminator(a.0);
    EscapeNoTerminator(a.1, '"');
    var eq: string := "=\"";
    var quote: string := "\"";
    assert NoLineTerminator(eq) by {
      assert eq[1..] == quote;
    }
    NoTerminatorConcat(a.0, eq);
    NoTerminatorConcat(a.0 + eq, Scan.Escape(a.1, '"'));
    NoTerminatorConcat(a.0 + eq + Scan.Escape(a.1, '"'), quote);
    assert Scan.RenderOne(a)[0] == a.0[0];
  }

  lemma {:induction false} RenderNoTerminator(attrs: Attributes)
    requires forall k :: 0 <= k < |attrs| ==> Scan.IsAttributeName(attrs[k].0) && NoLineTerminator(attrs[k].1)
    ensures NoLineTerminator(Scan.Render(attrs))
    ensures |attrs| > 0 ==> |Scan.Render(attrs)| > 0 && !IsWhitespace(Scan.Render(attrs)[0])
    decreases |attrs|
  {
    if |attrs| > 0 {
      RenderOneNoTerminator(attrs[0]);
      var one := Scan.RenderOne(attrs[0]);
      if |attrs| > 1 {
        RenderNoTerminator(attrs[1..]);
        assert NoLineTerminator(" ") by {
          assert " "[1..] == "";
        }
        NoTerminatorConcat(one, " ");
        NoTerminatorConcat(one + " ", Scan.Render(attrs[1..]));
        assert Scan.Render(attrs)[0] == one[0];
      }
    }
  }

  /** The written attributes stand as a marker's attribute text and are read back unchanged. */
  lemma ReadWritten(attrs: Attributes, n: nat)
    requires Writable(attrs)
    ensures AttributeText(Scan.Render(attrs))
    ensures MarkerAttributes(Scan.Render(attrs), n) == Ok(attrs)
  {
    RenderNoTerminator(attrs);
    if |attrs| > 0 {
      Scan.RenderRoundTrip(attrs);
    }
  }

  // ---------------------------------------------------------------------------
  // Marker lines

  /** Delimiters with which marker lines can be written: no line breaks, and an end that cannot join a name. */
  predicate Usable(d: Delimiters)
  {
    d.start != "" && SeparableEnd(d.end) && NoLineBreak(d.start) && NoLineBreak(d.end)
  }

  function EndLine(d: Delimiters): string
  {
    MarkerLine(d, "END", "")
  }

  lemma MarkerLineStarts(d: Delimiters, name: string, attrs: string)
    ensures StartsWith(MarkerLine(d, name, attrs), d.start)
  {
    MarkerLinePieces(d, name, if attrs == "" then "" else " " + attrs);
  }

  lemma MarkerLineNoBreak(d: Delimiters, name: string, attrs: string)
    requires Usable(d) && IsWord(name) && NoLineTerminator(attrs)
    ensures NoLineBreak(MarkerLine(d, name, attrs))
  {
    WordNoBreak(name);
    var sep := if attrs == "" then "" else " " + attrs;
    assert NoLineBreak(sep) by {
      if attrs != "" {
        NoTerminatorNoBreak(attrs);
        NoBreakConcat(" ", attrs);
      }
    }
    NoBreakConcat(d.start, name);
    NoBreakConcat(d.start + name, sep);
    NoBreakConcat(d.start + name + sep, d.end);
  }

  /** The names written on marker lines are `\w+` words. */
  lemma {:induction false} WordChars(s: string)
    requires forall k :: 0 <= k < |s| ==> IsWordChar(s[k])
    ensures AllWordChars(s)
    decreases |s|
  {
    if |s| > 0 {
      assert forall k :: 0 <= k < |s[1..]| ==> s[1..][k] == s[k + 1];
      WordChars(s[1..]);
    }
  }

  lemma KindWord(k: Kind)
    ensures IsWord(KindName(k))
  {
    WordChars(KindName(k));
  }

  lemma SectionWords()
    ensures IsWord("END") && IsWord("TO") && IsWord("REPLACE")
  {
  }

  lemma StarterOfKind(k: Kind)
    ensures StarterKind(KindName(k)) == Some(k) && KindName(k) != "END" && IsWord(KindName(k))
  {
    KindWord(k);
  }

  // ---------------------------------------------------------------------------
  // Feeding lines to a reader

  /** What reading one line, the `n`th, does to the parser's variables. */
  type Reader = (Vars, string, nat) -> Result<Vars, ParseError>

  /** The parser's own reader for the delimiters `d`. */
  function ReaderOf(d: Delimiters): Reader
  {
    (v: Vars, line: string, n: nat) => Step(v, line, n, d)
  }

  /** The lines from line `n` on, read one after the other until one fails. */
  function Run(read: Reader, v: Vars, lines: seq<string>, n: nat): Result<Vars, ParseError>
    decreases |lines|
  {
    if |lines| == 0 then Ok(v)
    else
      var r := read(v, lines[0], n);
      if r.Err? then r else Run(read, r.value, lines[1..], n + 1)
  }

  /** The parser's loop runs its own reader over the lines. */
  lemma {:induction false} FeedRun(v: Vars, lines: seq<string>, n: nat, d: Delimiters)
    ensures Feed(v, lines, n, d) == Run(ReaderOf(d), v, lines, n)
    decreases |lines|
  {
    if |lines| > 0 {
      var r := Step(v, lines[0], n, d);
      if r.Ok? {
        FeedRun(r.value, lines[1..], n + 1, d);
      }
    }
  }

  lemma RunCons(read: Reader, v: Vars, line: string, rest: seq<string>, n: nat)
    ensures Run(read, v, [line] + rest, n) ==
            (var r := read(v, line, n); if r.Err? then r else Run(read, r.value, rest, n + 1))
  {
    assert ([line] + rest)[0] == line;
    assert ([line] + rest)[1..] == rest;
  }

  /** Two stretches of lines are read one after the other. */
  lemma {:induction false} RunAppend(read: Reader, v: Vars, a: seq<string>, b: seq<string>, n: nat)
    ensures Run(read, v, a + b, n) ==
            (var r := Run(read, v, a, n); if r.Err? then r else Run(read, r.value, b, n + |a|))
    decreases |a|
  {
    if |a| == 0 {
      assert a + b == b;
    } else {
      assert (a + b)[0] == a[0];
      assert (a + b)[1..] == a[1..] + b;
      var r := read(v, a[0], n);
      if r.Ok? {
        RunAppend(read, r.value, a[1..], b, n + 1);
      }
    }
  }

  lemma RunLast(read: Reader, v: Vars, line: string, n: nat)
    ensures Run(read, v, [line], n) == read(v, line, n)
  {
    assert [line][1..] == [];
  }

  /** A written marker line accepted in the current state is handled as that marker. */
  lemma StepWritten(v: Vars, name: string, attrs: string, n: nat, d: Delimiters)
    requires IsWord(name) && AttributeText(attrs) && SeparableEnd(d.end) && AcceptsMarker(v.state, name)
    ensures Step(v, MarkerLine(d, name, attrs), n, d) == HandleMarker(v, name, attrs, n)
  {
    MarkerLineStarts(d, name, attrs);
    MatchMarkerLine(d, name, attrs);
    StepMarker(v, MarkerLine(d, name, attrs), n, d);
  }

  /** A section being read: an operation is open and the state is not TASKS. */
  predicate Reading(v: Vars)
  {
    v.state != Idle && v.state != TasksState && v.currentOp.Some?
  }

  /** Lines the parser takes as content: none starts with the start delimiter. */
  predicate PlainLines(lines: seq<string>, d: Delimiters)
    decreases |lines|
  {
    |lines| == 0 || (!StartsWith(lines[0], d.start) && PlainLines(lines[1..], d))
  }

  /** Lines a reader adds to the buffer of any section being read. */
  ghost predicate Quiet(read: Reader, lines: seq<string>)
    decreases |lines|
  {
    || |lines| == 0
    || (&& (forall v: Vars, n: nat :: Reading(v) ==> read(v, lines[0], n) == Ok(Collect(v, lines[0])))
        && Quiet(read, lines[1..]))
  }

  /** The parser's reader takes plain lines as content. */
  lemma {:induction false} PlainQuiet(lines: seq<string>, d: Delimiters)
    requires PlainLines(lines, d)
    ensures Quiet(ReaderOf(d), lines)
    decreases |lines|
  {
    if |lines| > 0 {
      PlainQuiet(lines[1..], d);
    }
  }

  /** The current section's buffer with `lines` appended. */
  function Buffered(v: Vars, lines: seq<string>): Vars
  {
    match v.state
    case SearchPattern => v.(pattern := v.pattern + lines)
    case SearchTo => v.(to := v.to + lines)
    case SearchReplacement => v.(replacement := v.replacement + lines)
    case _ => v.(content := v.content + lines)
  }

  lemma BufferedCollect(v: Vars, lines: seq<string>)
    requires |lines| > 0
    ensures Buffered(Collect(v, lines[0]), lines[1..]) == Buffered(v, lines)
  {
    assert lines == [lines[0]] + lines[1..];
    match v.state
    case SearchPattern =>
      assert (v.pattern + [lines[0]]) + lines[1..] == v.pattern + lines;
    case SearchTo =>
      assert (v.to + [lines[0]]) + lines[1..] == v.to + lines;
    case SearchReplacement =>
      assert (v.replacement + [lines[0]]) + lines[1..] == v.replacement + lines;
    case _ =>
      assert (v.content + [lines[0]]) + lines[1..] == v.content + lines;
  }

  lemma BufferedNone(v: Vars)
    ensures Buffered(v, []) == v
  {
    assert v.pattern + [] == v.pattern;
    assert v.to + [] == v.to;
    assert v.replacement + [] == v.replacement;
    assert v.content + [] == v.content;
  }

  /** Content lines go to the buffer of the section being read. */
  lemma {:induction false} RunBody(read: Reader, v: Vars, body: seq<string>, rest: seq<string>, n: nat)
    requires Reading(v) && Quiet(read, body)
    ensures Run(read, v, body + rest, n) == Run(read, Buffered(v, body), rest, n + |body|)
    decreases |body|
  {
    if |body| == 0 {
      assert body + rest == rest;
      BufferedNone(v);
    } else {
      assert body + rest == [body[0]] + (body[1..] + rest);
      RunCons(read, v, body[0], body[1..] + rest, n);
      assert read(v, body[0], n) == Ok(Collect(v, body[0]));
      RunBody(read, Collect(v, body[0]), body[1..], rest, n + 1);
      BufferedCollect(v, body);
    }
  }

  // ---------------------------------------------------------------------------
  // Writing operations

  /**
   * How marker lines are spelled: the opening marker of an operation of a
   * given kind and attributes, and the TO, REPLACE and END markers.
   */
  datatype Marks = Marks(open: (Kind, Attributes) -> string, to: string, replace: string, end: string)

  /** The marker lines written with the delimiters `d`. */
  function Spelled(d: Delimiters): Marks
  {
    Marks((k, attrs) => MarkerLine(d, KindName(k), Scan.Render(attrs)),
          MarkerLine(d, "TO", ""), MarkerLine(d, "REPLACE", ""), EndLine(d))
  }

  function OpLines(mk: Marks, op: Operation): seq<string>
    decreases op, 1
  {
    [mk.open(op.Kind(), op.attributes)] +
    match op
    case Write(_, _, c) => SplitLines(c) + [mk.end]
    case Run(_, _, c) => SplitLines(c) + [mk.end]
    case Search(_, _, p, t, r) =>
      if p.None? then [mk.end] else SplitLines(p.value) + SearchRest(mk, t, r)
    case Tasks(_, _, ops) => ListLines(mk, ops) + [mk.end]
  }

  /** A SEARCH after its pattern: the TO section if there is one, then REPLACE, the replacement and END. */
  function SearchRest(mk: Marks, to: Option<string>, replacement: Option<string>): seq<string>
  {
    var replace := [mk.replace] + (SplitLines(OrEmpty(replacement)) + [mk.end]);
    if to.Some? then [mk.to] + (SplitLines(to.value) + replace) else replace
  }

  function OrEmpty(s: Option<string>): string
  {
    if s.Some? then s.value else ""
  }

  function ListLines(mk: Marks, ops: seq<Operation>): seq<string>
    decreases ops, 0
  {
    if |ops| == 0 then [] else OpLines(mk, ops[0]) + ListLines(mk, ops[1..])
  }

  /** The text written for a list of operations. */
  function Document(d: Delimiters, ops: seq<Operation>): string
  {
    Join(ListLines(Spelled(d), ops))
  }

  /** The number of lines an operation is written on. */
  function Height(op: Operation): nat
    decreases op, 1
  {
    match op
    case Write(_, _, c) => 2 + |SplitLines(c)|
    case Run(_, _, c) => 2 + |SplitLines(c)|
    case Search(_, _, p, t, r) =>
      if p.None? then 2
      else 3 + |SplitLines(p.value)| + (if t.Some? then 1 + |SplitLines(t.value)| else 0)
           + |SplitLines(OrEmpty(r))|
    case Tasks(_, _, ops) => 2 + ListHeight(ops)
  }

  function ListHeight(ops: seq<Operation>): nat
    decreases ops, 0
  {
    if |ops| == 0 then 0 else Height(ops[0]) + ListHeight(ops[1..])
  }

  lemma {:induction false} OpHeight(mk: Marks, op: Operation)
    ensures |OpLines(mk, op)| == Height(op)
    decreases op, 1
  {
    if op.Tasks? {
      ListLinesHeight(mk, op.operations);
    }
  }

  lemma {:induction false} ListLinesHeight(mk: Marks, ops: seq<Operation>)
    ensures |ListLines(mk, ops)| == ListHeight(ops)
    decreases ops, 0
  {
    if |ops| > 0 {
      OpHeight(mk, ops[0]);
      ListLinesHeight(mk, ops[1..]);
    }
  }

  /** Each operation carries the line its opening marker is written on, the first being line `n`. */
  predicate Placed(ops: seq<Operation>, n: nat)
    decreases ops, 0
  {
    |ops| == 0 || (PlacedOp(ops[0], n) && Placed(ops[1..], n + Height(ops[0])))
  }

  predicate PlacedOp(op: Operation, n: nat)
    decreases op, 1
  {
    op.line == n && (op.Tasks? ==> Placed(op.operations, n + 1))
  }

  /** Content written on lines the parser reads back as that content. */
  predicate Body(d: Delimiters, c: string)
  {
    NoCarriageReturn(c) && PlainLines(SplitLines(c), d)
  }

  /**
   * An operation the parser can produce and whose written form it reads as
   * such: attributes with unique names and no line terminators, content
   * lines that do not start with the start delimiter, a SEARCH with all its
   * sections or none, and no TASKS inside a TASKS.
   */
  predicate Renderable(d: Delimiters, op: Operation)
    decreases op
  {
    && Writable(op.attributes)
    && match op
       case Write(_, _, c) => Body(d, c)
       case Run(_, _, c) => Body(d, c)
       case Search(_, _, p, t, r) =>
         if p.None? then t.None? && r.None?
         else r.Some? && Body(d, p.value) && Body(d, r.value) && (t.Some? ==> Body(d, t.value))
       case Tasks(_, _, ops) => forall k :: 0 <= k < |ops| ==> !ops[k].Tasks? && Renderable(d, ops[k])
  }

  // ---------------------------------------------------------------------------
  // Reading written operations

  /** Where an operation is read: at the top level, or inside an open TASKS. */
  datatype Context = Top(done: seq<Operation>) | Inside(done: seq<Operation>, tasks: Draft)

  /** The parser's variables between two operations. */
  function VarsOf(c: Context): Vars
  {
    match c
    case Top(done) => Initial.(operations := done)
    case Inside(done, t) => Vars(TasksState, Some(t), true, Some(t), [], [], [], [], done)
  }

  /** The context after reading `ops`: they are appended to the result, or to the open TASKS. */
  function Added(c: Context, ops: seq<Operation>): Context
  {
    match c
    case Top(done) => Top(done + ops)
    case Inside(done, t) => Inside(done, t.(operations := t.operations + ops))
  }

  lemma AddedNone(c: Context)
    ensures Added(c, []) == c
  {
    match c
    case Top(done) =>
      assert done + [] == done;
    case Inside(done, t) =>
      assert t.operations + [] == t.operations;
  }

  lemma AddedTwice(c: Context, a: seq<Operation>, b: seq<Operation>)
    ensures Added(Added(c, a), b) == Added(c, a + b)
  {
    match c
    case Top(done) =>
      assert (done + a) + b == done + (a + b);
    case Inside(done, t) =>
      assert (t.operations + a) + b == t.operations + (a + b);
  }

  /** The operation opened by the marker of `op`, read between two operations. */
  function Opened(c: Context, op: Operation, n: nat): Vars
  {
    if op.Tasks? then VarsOf(Inside(c.done, Draft(TASKS, n, op.attributes, [])))
    else VarsOf(c).(currentOp := Some(Draft(op.Kind(), n, op.attributes, [])), state := StateOf(op.Kind()))
  }

  /** END after the sections of an operation that is not a TASKS: it goes to the result or to its TASKS. */
  lemma EndLeaf(c: Context, op: Operation, w: Vars, n: nat)
    requires w.state != Idle && w.state != TasksState
    requires w.currentOp.Some? && Completed(w.currentOp.value, w.state, w.content, w.pattern, w.to, w.replacement) == op
    requires w == VarsOf(c).(currentOp := w.currentOp, state := w.state, content := w.content,
                             pattern := w.pattern, to := w.to, replacement := w.replacement)
    ensures End(w, "", n) == Ok(VarsOf(Added(c, [op])))
  {
  }


  /** A reader that reads the marker lines `mk` as the markers they stand for. */
  ghost predicate Reads(mk: Marks, read: Reader)
  {
    && (forall c: Context, op: Operation, n: nat :: Writable(op.attributes) && (op.Tasks? ==> c.Top?) ==>
          read(VarsOf(c), mk.open(op.Kind(), op.attributes), n) == Ok(Opened(c, op, n)))
    && (forall v: Vars, n: nat :: v.state == SearchPattern ==> read(v, mk.to, n) == Ok(v.(state := SearchTo)))
    && (forall v: Vars, n: nat :: v.state == SearchPattern || v.state == SearchTo ==>
          read(v, mk.replace, n) == Ok(v.(state := SearchReplacement)))
    && (forall v: Vars, n: nat :: AcceptsMarker(v.state, "END") ==> read(v, mk.end, n) == End(v, "", n))
  }

  /** The content a reader adds to the buffers, in every section of an operation. */
  ghost predicate Legible(read: Reader, op: Operation)
    decreases op
  {
    match op
    case Write(_, _, c) => Quiet(read, SplitLines(c))
    case Run(_, _, c) => Quiet(read, SplitLines(c))
    case Search(_, _, p, t, r) =>
      && (p.Some? ==> Quiet(read, SplitLines(p.value)))
      && (t.Some? ==> Quiet(read, SplitLines(t.value)))
      && (r.Some? ==> Quiet(read, SplitLines(r.value)))
    case Tasks(_, _, ops) => forall k :: 0 <= k < |ops| ==> Legible(read, ops[k])
  }

  // ---------------------------------------------------------------------------
  // The written marker lines are read as markers

  lemma StepOpen(c: Context, op: Operation, n: nat, d: Delimiters)
    requires SeparableEnd(d.end) && Writable(op.attributes) && (op.Tasks? ==> c.Top?)
    ensures Step(VarsOf(c), MarkerLine(d, KindName(op.Kind()), Scan.Render(op.attributes)), n, d) == Ok(Opened(c, op, n))
  {
    StarterOfKind(op.Kind());
    ReadWritten(op.attributes, n);
    StepWritten(VarsOf(c), KindName(op.Kind()), Scan.Render(op.attributes), n, d);
  }

  lemma StepTo(v: Vars, n: nat, d: Delimiters)
    requires SeparableEnd(d.end) && v.state == SearchPattern
    ensures Step(v, MarkerLine(d, "TO", ""), n, d) == Ok(v.(state := SearchTo))
  {
    SectionWords();
    StepWritten(v, "TO", "", n, d);
  }

  lemma StepReplace(v: Vars, n: nat, d: Delimiters)
    requires SeparableEnd(d.end) && (v.state == SearchPattern || v.state == SearchTo)
    ensures Step(v, MarkerLine(d, "REPLACE", ""), n, d) == Ok(v.(state := SearchReplacement))
  {
    SectionWords();
    StepWritten(v, "REPLACE", "", n, d);
  }

  lemma StepEnd(v: Vars, n: nat, d: Delimiters)
    requires SeparableEnd(d.end) && AcceptsMarker(v.state, "END")
    ensures Step(v, EndLine(d), n, d) == End(v, "", n)
  {
    SectionWords();
    StepWritten(v, "END", "", n, d);
  }

  /** The parser reads the marker lines it is given the delimiters of. */
  lemma SpelledReads(d: Delimiters)
    requires SeparableEnd(d.end)
    ensures Reads(Spelled(d), ReaderOf(d))
  {
    var mk, read := Spelled(d), ReaderOf(d);
    forall c: Context, op: Operation, n: nat | Writable(op.attributes) && (op.Tasks? ==> c.Top?)
      ensures read(VarsOf(c), mk.open(op.Kind(), op.attributes), n) == Ok(Opened(c, op, n))
    {
      StepOpen(c, op, n, d);
    }
    forall v: Vars, n: nat | v.state == SearchPattern
      ensures read(v, mk.to, n) == Ok(v.(state := SearchTo))
    {
      StepTo(v, n, d);
    }
    forall v: Vars, n: nat | v.state == SearchPattern || v.state == SearchTo
      ensures read(v, mk.replace, n) == Ok(v.(state := SearchReplacement))
    {
      StepReplace(v, n, d);
    }
    forall v: Vars, n: nat | AcceptsMarker(v.state, "END")
      ensures read(v, mk.end, n) == End(v, "", n)
    {
      StepEnd(v, n, d);
    }
  }

  /** The parser's reader adds the content of a renderable operation to its buffers. */
  lemma {:induction false} RenderableLegible(d: Delimiters, op: Operation)
    requires Renderable(d, op)
    ensures Legible(ReaderOf(d), op)
    decreases op
  {
    match op
    case Write(_, _, c) => PlainQuiet(SplitLines(c), d);
    case Run(_, _, c) => PlainQuiet(SplitLines(c), d);
    case Search(_, _, p, t, r) =>
      if p.Some? {
        PlainQuiet(SplitLines(p.value), d);
        PlainQuiet(SplitLines(r.value), d);
        if t.Some? {
          PlainQuiet(SplitLines(t.value), d);
        }
      }
    case Tasks(_, _, ops) =>
      forall k | 0 <= k < |ops|
        ensures Legible(ReaderOf(d), ops[k])
      {
        RenderableLegible(d, ops[k]);
      }
  }

  // ---------------------------------------------------------------------------
  // Stretches of lines

  /** A marker line that opens a section, then the section's lines. */
  lemma RunSection(read: Reader, v: Vars, m: string, body: seq<string>, rest: seq<string>, n: nat, w: Vars)
    requires read(v, m, n) == Ok(w) && Reading(w) && Quiet(read, body)
    ensures Run(read, v, [m] + (body + rest), n) == Run(read, Buffered(w, body), rest, n + 1 + |body|)
  {
    RunCons(read, v, m, body + rest, n);
    RunBody(read, w, body, rest, n + 1);
  }

  /** A section's marker line and lines, then the marker line that ends them. */
  lemma RunLeaf(read: Reader, v: Vars, m: string, body: seq<string>, e: string, n: nat, w: Vars)
    requires read(v, m, n) == Ok(w) && Reading(w) && Quiet(read, body)
    ensures Run(read, v, [m] + (body + [e]), n) == read(Buffered(w, body), e, n + 1 + |body|)
  {
    RunSection(read, v, m, body, [e], n, w);
    RunLast(read, Buffered(w, body), e, n + 1 + |body|);
  }

  /** REPLACE, the replacement lines and END. */
  lemma RunReplace(read: Reader, v: Vars, rs: seq<string>, n: nat, mk: Marks)
    requires Reads(mk, read) && Reading(v) && (v.state == SearchPattern || v.state == SearchTo) && Quiet(read, rs)
    ensures Run(read, v, [mk.replace] + (rs + [mk.end]), n)
            == read(v.(state := SearchReplacement, replacement := v.replacement + rs), mk.end, n + 1 + |rs|)
  {
    var w := v.(state := SearchReplacement);
    RunLeaf(read, v, mk.replace, rs, mk.end, n, w);
    assert Buffered(w, rs) == v.(state := SearchReplacement, replacement := v.replacement + rs);
  }

  /** TO and its lines, then the rest. */
  lemma RunTo(read: Reader, v: Vars, ts: seq<string>, rest: seq<string>, n: nat, mk: Marks)
    requires Reads(mk, read) && Reading(v) && v.state == SearchPattern && Quiet(read, ts)
    ensures Run(read, v, [mk.to] + (ts + rest), n) == Run(read, v.(state := SearchTo, to := v.to + ts), rest, n + 1 + |ts|)
  {
    var w := v.(state := SearchTo);
    RunSection(read, v, mk.to, ts, rest, n, w);
    assert Buffered(w, ts) == v.(state := SearchTo, to := v.to + ts);
  }

  /** TO and its lines, then REPLACE, the replacement lines and END. */
  lemma RunToReplace(read: Reader, v: Vars, ts: seq<string>, rs: seq<string>, n: nat, mk: Marks)
    requires Reads(mk, read) && Reading(v) && v.state == SearchPattern && Quiet(read, ts) && Quiet(read, rs)
    ensures Run(read, v, [mk.to] + (ts + ([mk.replace] + (rs + [mk.end]))), n)
            == read(v.(state := SearchReplacement, to := v.to + ts, replacement := v.replacement + rs), mk.end,
                    n + 2 + |ts| + |rs|)
  {
    RunTo(read, v, ts, [mk.replace] + (rs + [mk.end]), n, mk);
    RunReplace(read, v.(state := SearchTo, to := v.to + ts), rs, n + 1 + |ts|, mk);
  }

  // ---------------------------------------------------------------------------
  // Written operations are read back

  /** A WRITE or RUN: its marker, its content lines and END. */
  lemma RunText(read: Reader, c: Context, op: Operation, n: nat, mk: Marks, d: Delimiters)
    requires Reads(mk, read) && (op.Write? || op.Run?) && op.line == n && Renderable(d, op) && Legible(read, op)
    ensures Run(read, VarsOf(c), OpLines(mk, op), n) == Ok(VarsOf(Added(c, [op])))
  {
    var m, body := mk.open(op.Kind(), op.attributes), SplitLines(op.content);
    var v := Opened(c, op, n);
    assert OpLines(mk, op) == [m] + (body + [mk.end]);
    RunLeaf(read, VarsOf(c), m, body, mk.end, n, v);
    var w := v.(content := body);
    assert Buffered(v, body) == w;
    JoinLinesOf(op.content);
    EndLeaf(c, op, w, n + 1 + |body|);
  }

  /** A SEARCH without sections: its marker and END. */
  lemma RunBareSearch(read: Reader, c: Context, op: Operation, n: nat, mk: Marks, d: Delimiters)
    requires Reads(mk, read) && op.Search? && op.pattern.None? && op.line == n && Renderable(d, op)
    ensures Run(read, VarsOf(c), OpLines(mk, op), n) == Ok(VarsOf(Added(c, [op])))
  {
    var m := mk.open(op.Kind(), op.attributes);
    var v := Opened(c, op, n);
    assert OpLines(mk, op) == [m] + ([] + [mk.end]);
    RunLeaf(read, VarsOf(c), m, [], mk.end, n, v);
    BufferedNone(v);
    EndLeaf(c, op, v, n + 1);
  }

  /** The marker and the pattern lines of a SEARCH with its sections, before the lines that lead to `res`. */
  lemma RunPattern(read: Reader, v: Vars, o: Vars, op: Operation, n: nat, mk: Marks, res: Result<Vars, ParseError>)
    requires read(v, mk.open(op.Kind(), op.attributes), n) == Ok(o) && Reading(o) && o.state == SearchPattern
    requires op.Search? && op.pattern.Some? && Quiet(read, SplitLines(op.pattern.value))
    requires Run(read, o.(pattern := o.pattern + SplitLines(op.pattern.value)), SearchRest(mk, op.to, op.replacement),
                 n + 1 + |SplitLines(op.pattern.value)|) == res
    ensures Run(read, v, OpLines(mk, op), n) == res
  {
    var m, ps := mk.open(op.Kind(), op.attributes), SplitLines(op.pattern.value);
    assert OpLines(mk, op) == [m] + (ps + SearchRest(mk, op.to, op.replacement));
    RunSection(read, v, m, ps, SearchRest(mk, op.to, op.replacement), n, o);
  }

  /** END after the pattern, the TO section if any and the replacement of a SEARCH. */
  lemma EndSearch(c: Context, op: Operation, n: nat, o: Vars, w: Vars, m: nat)
    requires op.Search? && op.line == n && op.pattern.Some? && op.replacement.Some?
    requires NoCarriageReturn(op.pattern.value) && NoCarriageReturn(op.replacement.value)
    requires op.to.Some? ==> NoCarriageReturn(op.to.value)
    requires o == Opened(c, op, n)
    requires w == o.(pattern := o.pattern + SplitLines(op.pattern.value))
                   .(state := SearchReplacement, to := SectionLines(op.to), replacement := SplitLines(op.replacement.value))
    ensures End(w, "", m) == Ok(VarsOf(Added(c, [op])))
  {
    JoinLinesOf(op.pattern.value);
    JoinLinesOf(op.replacement.value);
    if op.to.Some? {
      JoinLinesOf(op.to.value);
    }
    assert o.pattern + SplitLines(op.pattern.value) == SplitLines(op.pattern.value);
    EndLeaf(c, op, w, m);
  }

  /** The lines of an optional section: none when it is absent. */
  function SectionLines(s: Option<string>): seq<string>
  {
    if s.Some? then SplitLines(s.value) else []
  }

  /** The sections of a SEARCH after its pattern: TO and its lines if any, REPLACE, the replacement and END. */
  lemma RunRest(read: Reader, u: Vars, to: Option<string>, r: Option<string>, k: nat, mk: Marks)
    requires Reads(mk, read) && Reading(u) && u.state == SearchPattern && u.to == [] && u.replacement == []
    requires r.Some? && Quiet(read, SectionLines(to)) && Quiet(read, SplitLines(r.value))
    ensures Run(read, u, SearchRest(mk, to, r), k)
            == read(u.(state := SearchReplacement, to := SectionLines(to), replacement := SplitLines(r.value)), mk.end,
                    k + |SearchRest(mk, to, r)|)
  {
    var rs := SplitLines(r.value);
    if to.Some? {
      var ts := SplitLines(to.value);
      assert SearchRest(mk, to, r) == [mk.to] + (ts + ([mk.replace] + (rs + [mk.end])));
      RunToReplace(read, u, ts, rs, k, mk);
      assert u.(state := SearchReplacement, to := u.to + ts, replacement := u.replacement + rs)
          == u.(state := SearchReplacement, to := ts, replacement := rs);
    } else {
      assert SearchRest(mk, to, r) == [mk.replace] + (rs + [mk.end]);
      RunReplace(read, u, rs, k, mk);
      assert u.(state := SearchReplacement, replacement := u.replacement + rs)
          == u.(state := SearchReplacement, to := [], replacement := rs);
    }
  }

  /** The lines of a SEARCH with its sections, from its opening marker up to END. */
  lemma RunSearchLines(read: Reader, v: Vars, o: Vars, op: Operation, n: nat, mk: Marks)
    requires Reads(mk, read) && read(v, mk.open(op.Kind(), op.attributes), n) == Ok(o)
    requires Reading(o) && o.state == SearchPattern && o.to == [] && o.replacement == []
    requires op.Search? && op.pattern.Some? && op.replacement.Some? && Legible(read, op)
    ensures var ps := SplitLines(op.pattern.value);
            Run(read, v, OpLines(mk, op), n)
            == read(o.(pattern := o.pattern + ps)
                      .(state := SearchReplacement, to := SectionLines(op.to), replacement := SplitLines(op.replacement.value)),
                    mk.end, n + 1 + |ps| + |SearchRest(mk, op.to, op.replacement)|)
  {
    var ps := SplitLines(op.pattern.value);
    var u := o.(pattern := o.pattern + ps);
    RunRest(read, u, op.to, op.replacement, n + 1 + |ps|, mk);
    RunPattern(read, v, o, op, n, mk,
               read(u.(state := SearchReplacement, to := SectionLines(op.to), replacement := SplitLines(op.replacement.value)),
                    mk.end, n + 1 + |ps| + |SearchRest(mk, op.to, op.replacement)|));
  }

  /** A SEARCH with its sections: its marker, the pattern, TO and its lines if any, REPLACE, the replacement and END. */
  lemma RunSearch(read: Reader, c: Context, op: Operation, n: nat, mk: Marks)
    requires Reads(mk, read) && op.Search? && op.pattern.Some? && op.replacement.Some? && op.line == n
    requires Writable(op.attributes) && Legible(read, op)
    requires NoCarriageReturn(op.pattern.value) && NoCarriageReturn(op.replacement.value)
    requires op.to.Some? ==> NoCarriageReturn(op.to.value)
    ensures Run(read, VarsOf(c), OpLines(mk, op), n) == Ok(VarsOf(Added(c, [op])))
  {
    var o := Opened(c, op, n);
    var w := o.(pattern := o.pattern + SplitLines(op.pattern.value))
              .(state := SearchReplacement, to := SectionLines(op.to), replacement := SplitLines(op.replacement.value));
    var m := n + 1 + |SplitLines(op.pattern.value)| + |SearchRest(mk, op.to, op.replacement)|;
    RunSearchLines(read, VarsOf(c), o, op, n, mk);
    EndSearch(c, op, n, o, w, m);
  }

  /** Two stretches of lines, the first of which reads to `w`. */
  lemma RunThen(read: Reader, v: Vars, a: seq<string>, b: seq<string>, n: nat, w: Vars, res: Result<Vars, ParseError>)
    requires Run(read, v, a, n) == Ok(w) && Run(read, w, b, n + |a|) == res
    ensures Run(read, v, a + b, n) == res
  {
    RunAppend(read, v, a, b, n);
  }

  /** An opening marker line, the lines it encloses and a closing one. */
  lemma RunEnclosed(read: Reader, v: Vars, m: string, body: seq<string>, e: string, n: nat, w: Vars, x: Vars,
                    res: Result<Vars, ParseError>)
    requires read(v, m, n) == Ok(w) && Run(read, w, body, n + 1) == Ok(x) && read(x, e, n + 1 + |body|) == res
    ensures Run(read, v, [m] + (body + [e]), n) == res
  {
    RunCons(read, v, m, body + [e], n);
    RunLast(read, x, e, n + 1 + |body|);
    RunThen(read, w, body, [e], n + 1, x, res);
  }

  /** END after the operations of a TASKS at the top level: the TASKS goes to the result. */
  lemma EndTasks(done: seq<Operation>, op: Operation, n: nat, m: nat)
    requires op.Tasks? && op.line == n
    ensures End(VarsOf(Added(Inside(done, Draft(TASKS, n, op.attributes, [])), op.operations)), "", m)
            == Ok(VarsOf(Added(Top(done), [op])))
  {
    assert [] + op.operations == op.operations;
  }

  /** A TASKS at the top level: its marker, its operations and END. */
  lemma {:induction false} RunTasks(read: Reader, done: seq<Operation>, op: Operation, n: nat, mk: Marks, d: Delimiters)
    requires Reads(mk, read) && op.Tasks? && op.line == n && Writable(op.attributes) && Placed(op.operations, n + 1)
    requires forall k :: 0 <= k < |op.operations| ==>
               !op.operations[k].Tasks? && Renderable(d, op.operations[k]) && Legible(read, op.operations[k])
    ensures Run(read, VarsOf(Top(done)), OpLines(mk, op), n) == Ok(VarsOf(Added(Top(done), [op])))
    decreases op, 1
  {
    var m, ops := mk.open(op.Kind(), op.attributes), op.operations;
    var inner := Inside(done, Draft(TASKS, n, op.attributes, []));
    assert OpLines(mk, op) == [m] + (ListLines(mk, ops) + [mk.end]);
    RunList(read, inner, ops, n + 1, mk, d);
    var x := VarsOf(Added(inner, ops));
    EndTasks(done, op, n, n + 1 + |ListLines(mk, ops)|);
    RunEnclosed(read, VarsOf(Top(done)), m, ListLines(mk, ops), mk.end, n, VarsOf(inner), x,
                Ok(VarsOf(Added(Top(done), [op]))));
  }

  /** Any operation the parser can read back, at the top level or inside a TASKS. */
  lemma {:induction false} RunOp(read: Reader, c: Context, op: Operation, n: nat, mk: Marks, d: Delimiters)
    requires Reads(mk, read) && PlacedOp(op, n) && Renderable(d, op) && Legible(read, op) && (op.Tasks? ==> c.Top?)
    ensures Run(read, VarsOf(c), OpLines(mk, op), n) == Ok(VarsOf(Added(c, [op])))
    decreases op, 2
  {
    match op
    case Write(_, _, _) => RunText(read, c, op, n, mk, d);
    case Run(_, _, _) => RunText(read, c, op, n, mk, d);
    case Search(_, _, p, _, _) =>
      if p.None? {
        RunBareSearch(read, c, op, n, mk, d);
      } else {
        RunSearch(read, c, op, n, mk);
      }
    case Tasks(_, _, _) => RunTasks(read, c.done, op, n, mk, d);
  }

  /** A list of operations, one after the other. */
  lemma {:induction false} RunList(read: Reader, c: Context, ops: seq<Operation>, n: nat, mk: Marks, d: Delimiters)
    requires Reads(mk, read) && Placed(ops, n)
    requires forall k :: 0 <= k < |ops| ==>
               Renderable(d, ops[k]) && Legible(read, ops[k]) && (c.Inside? ==> !ops[k].Tasks?)
    ensures Run(read, VarsOf(c), ListLines(mk, ops), n) == Ok(VarsOf(Added(c, ops)))
    decreases ops, 0
  {
    if |ops| == 0 {
      AddedNone(c);
    } else {
      var first, h := Added(c, [ops[0]]), n + Height(ops[0]);
      RunOp(read, c, ops[0], n, mk, d);
      OpHeight(mk, ops[0]);
      assert h == n + |OpLines(mk, ops[0])|;
      assert forall k :: 0 <= k < |ops[1..]| ==> ops[1..][k] == ops[k + 1];
      RunList(read, first, ops[1..], h, mk, d);
      AddedTwice(c, [ops[0]], ops[1..]);
      assert [ops[0]] + ops[1..] == ops;
      assert Added(first, ops[1..]) == Added(c, ops);
      RunThen(read, VarsOf(c), OpLines(mk, ops[0]), ListLines(mk, ops[1..]), n, VarsOf(first),
              Ok(VarsOf(Added(c, ops))));
    }
  }

  // ---------------------------------------------------------------------------
  // The written lines have no line breaks

  predicate LinesUnbroken(lines: seq<string>)
  {
    forall k :: 0 <= k < |lines| ==> NoLineBreak(lines[k])
  }

  /** Marker lines without line breaks. */
  ghost predicate Unbroken(mk: Marks)
  {
    && (forall k: Kind, attrs: Attributes :: Writable(attrs) ==> NoLineBreak(mk.open(k, attrs)))
    && NoLineBreak(mk.to) && NoLineBreak(mk.replace) && NoLineBreak(mk.end)
  }

  lemma SpelledUnbroken(d: Delimiters)
    requires Usable(d)
    ensures Unbroken(Spelled(d))
  {
    forall k: Kind, attrs: Attributes | Writable(attrs)
      ensures NoLineBreak(MarkerLine(d, KindName(k), Scan.Render(attrs)))
    {
      KindWord(k);
      RenderNoTerminator(attrs);
      MarkerLineNoBreak(d, KindName(k), Scan.Render(attrs));
    }
    SectionWords();
    MarkerLineNoBreak(d, "TO", "");
    MarkerLineNoBreak(d, "REPLACE", "");
    MarkerLineNoBreak(d, "END", "");
  }

  lemma UnbrokenConcat(a: seq<string>, b: seq<string>)
    requires LinesUnbroken(a) && LinesUnbroken(b)
    ensures LinesUnbroken(a + b)
  {
    forall k | 0 <= k < |a + b|
      ensures NoLineBreak((a + b)[k])
    {
      if k < |a| {
        assert (a + b)[k] == a[k];
      } else {
        assert (a + b)[k] == b[k - |a|];
      }
    }
  }

  lemma UnbrokenText(c: string)
    ensures LinesUnbroken(SplitLines(c))
  {
    SplitLinesNoBreak(c);
  }

  lemma {:induction false} OpUnbroken(mk: Marks, d: Delimiters, op: Operation)
    requires Unbroken(mk) && Renderable(d, op)
    ensures LinesUnbroken(OpLines(mk, op))
    decreases op, 1
  {
    var head := [mk.open(op.Kind(), op.attributes)];
    var ends := [mk.end];
    match op
    case Write(_, _, c) =>
      UnbrokenText(c);
      UnbrokenConcat(SplitLines(c), ends);
      UnbrokenConcat(head, SplitLines(c) + ends);
    case Run(_, _, c) =>
      UnbrokenText(c);
      UnbrokenConcat(SplitLines(c), ends);
      UnbrokenConcat(head, SplitLines(c) + ends);
    case Search(_, _, p, t, r) =>
      if p.None? {
        UnbrokenConcat(head, ends);
      } else {
        var replace := [mk.replace] + (SplitLines(OrEmpty(r)) + ends);
        UnbrokenText(OrEmpty(r));
        UnbrokenConcat(SplitLines(OrEmpty(r)), ends);
        UnbrokenConcat([mk.replace], SplitLines(OrEmpty(r)) + ends);
        if t.Some? {
          UnbrokenText(t.value);
          UnbrokenConcat(SplitLines(t.value), replace);
          UnbrokenConcat([mk.to], SplitLines(t.value) + replace);
        }
        UnbrokenText(p.value);
        UnbrokenConcat(SplitLines(p.value), SearchRest(mk, t, r));
        UnbrokenConcat(head, SplitLines(p.value) + SearchRest(mk, t, r));
      }
    case Tasks(_, _, ops) =>
      ListUnbroken(mk, d, ops);
      UnbrokenConcat(ListLines(mk, ops), ends);
      UnbrokenConcat(head, ListLines(mk, ops) + ends);
  }

  lemma {:induction false} ListUnbroken(mk: Marks, d: Delimiters, ops: seq<Operation>)
    requires Unbroken(mk) && forall k :: 0 <= k < |ops| ==> Renderable(d, ops[k])
    ensures LinesUnbroken(ListLines(mk, ops))
    decreases ops, 0
  {
    if |ops| > 0 {
      OpUnbroken(mk, d, ops[0]);
      ListUnbroken(mk, d, ops[1..]);
      UnbrokenConcat(OpLines(mk, ops[0]), ListLines(mk, ops[1..]));
    }
  }

  // ---------------------------------------------------------------------------
  // The round trip

  /** The lines of a written document are the lines written for its operations. */
  lemma LinesWritten(d: Delimiters, ast: seq<Operation>)
    requires Usable(d) && |ast| > 0
    requires forall k :: 0 <= k < |ast| ==> Renderable(d, ast[k])
    ensures SplitLines(Document(d, ast)) == ListLines(Spelled(d), ast)
  {
    var mk := Spelled(d);
    var lines := ListLines(mk, ast);
    assert lines == OpLines(mk, ast[0]) + ListLines(mk, ast[1..]);
    assert |OpLines(mk, ast[0])| > 0;
    SpelledUnbroken(d);
    ListUnbroken(mk, d, ast);
    SplitJoin(lines);
  }

  /** The parser's reader takes the written lines back to the operations. */
  lemma RunWritten(d: Delimiters, ast: seq<Operation>)
    requires Usable(d) && Placed(ast, 1)
    requires forall k :: 0 <= k < |ast| ==> Renderable(d, ast[k])
    ensures Run(ReaderOf(d), Initial, ListLines(Spelled(d), ast), 1) == Ok(Initial.(operations := ast))
  {
    SpelledReads(d);
    forall k | 0 <= k < |ast|
      ensures Legible(ReaderOf(d), ast[k])
    {
      RenderableLegible(d, ast[k]);
    }
    RunList(ReaderOf(d), Top([]), ast, 1, Spelled(d), d);
    assert VarsOf(Top([])) == Initial;
    assert [] + ast == ast;
  }

  /** An empty text parses to no operations. */
  lemma ParseEmpty(options: ParseOptions)
    ensures ParseText("", options) == Ok([])
  {
    assert SplitLines("") == [""];
    assert Feed(Initial, [""], 1, DelimitersOf(options)) == Ok(Initial);
  }

  /**
   * The text written for operations that sit at the lines they are written
   * on, and whose attributes and content the parser reads back, parses to
   * exactly those operations.
   */
  lemma ParseRendered(ast: seq<Operation>, options: ParseOptions)
    requires Usable(DelimitersOf(options)) && Placed(ast, 1)
    requires forall k :: 0 <= k < |ast| ==> Renderable(DelimitersOf(options), ast[k])
    ensures ParseText(Document(DelimitersOf(options), ast), options) == Ok(ast)
  {
    var d := DelimitersOf(options);
    if |ast| == 0 {
      assert Document(d, ast) == "";
      ParseEmpty(options);
    } else {
      LinesWritten(d, ast);
      RunWritten(d, ast);
      FeedRun(Initial, ListLines(Spelled(d), ast), 1, d);
      assert Feed(Initial, SplitLines(Document(d, ast)), 1, d) == Ok(Initial.(operations := ast));
    }
  }
}
