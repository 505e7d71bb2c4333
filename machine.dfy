/**
 * The parser's line-by-line state machine, as functions over the variables
 * the parser keeps (`state`, `currentOp`, `insideTasks`, `tasksOp`, the four
 * line buffers and `operations`). `Step` is one turn of the loop over the
 * lines, `Feed` the whole loop, `Finish` the check for unterminated
 * operations after it, and `ParseText` the whole of `parse`. A thrown
 * `Error` is an `Err`.
 *
 * The parser's operation objects are values here: `currentOp` and `tasksOp`
 * are the same object exactly when `state` is `TASKS` (proved as part of
 * `Inv`), and the one mutation made through that alias (pushing a finished
 * nested operation onto `tasksOp.operations`) is followed by restoring
 * `currentOp` to `tasksOp`, so comparing the two as values gives the same
 * answers as comparing them as objects.
 */
module Machine {
  import opened Wrappers
  import opened Text
  import opened Ast
  import opened Markers
  import Scan = Attributes

  /** The `state` variable: `null` (`Idle`) or one of the state names. */
  datatype State = Idle | TasksState | WriteState | RunState | SearchPattern | SearchTo | SearchReplacement

  /** `state.replace(/_/g, ' ')` as used in messages, and `'null'` for no state. */
  function StateText(s: State): string
  {
    match s
    case Idle => "null"
    case TasksState => "TASKS"
    case WriteState => "WRITE"
    case RunState => "RUN"
    case SearchPattern => "SEARCH PATTERN"
    case SearchTo => "SEARCH TO"
    case SearchReplacement => "SEARCH REPLACEMENT"
  }

  /** `state.startsWith('SEARCH')`. */
  predicate IsSearchState(s: State)
  {
    s == SearchPattern || s == SearchTo || s == SearchReplacement
  }

  /** The state an opening marker enters. */
  function StateOf(k: Kind): State
  {
    match k
    case WRITE => WriteState
    case RUN => RunState
    case SEARCH => SearchPattern
    case TASKS => TasksState
  }

  /** An operation being read: its type, line and attributes, and for TASKS the operations finished so far. */
  datatype Draft = Draft(kind: Kind, line: nat, attributes: Attributes, operations: seq<Operation>)

  /** The parser's variables between two lines. */
  datatype Vars = Vars(state: State, currentOp: Option<Draft>, insideTasks: bool, tasksOp: Option<Draft>,
                       content: seq<string>, pattern: seq<string>, to: seq<string>,
                       replacement: seq<string>, operations: seq<Operation>)

  const Initial := Vars(Idle, None, false, None, [], [], [], [], [])

  /** The operation an opening-marker name starts: `['WRITE', 'RUN', 'SEARCH', 'TASKS'].includes(opName)`. */
  function StarterKind(name: string): (k: Option<Kind>)
    ensures k.Some? ==> KindName(k.value) == name
  {
    if name == "WRITE" then Some(WRITE)
    else if name == "RUN" then Some(RUN)
    else if name == "SEARCH" then Some(SEARCH)
    else if name == "TASKS" then Some(TASKS)
    else None
  }

  /** Whether a line matching the full marker pattern is taken as a marker in state `s`. */
  predicate AcceptsMarker(s: State, name: string)
  {
    match s
    case Idle => true
    case TasksState => true
    case WriteState => name == "END"
    case RunState => name == "END"
    case SearchPattern => name == "TO" || name == "REPLACE" || name == "END"
    case SearchTo => name == "REPLACE"
    case SearchReplacement => name == "END"
  }

  /** `isValidOperationForState`: the markers that would be legal in state `s`. */
  predicate ValidForState(name: string, s: State)
  {
    match s
    case Idle => StarterKind(name).Some?
    case TasksState => name == "WRITE" || name == "RUN" || name == "SEARCH" || name == "END"
    case WriteState => name == "END"
    case RunState => name == "END"
    case SearchPattern => name == "TO" || name == "REPLACE" || name == "END"
    case SearchTo => name == "REPLACE"
    case SearchReplacement => name == "END"
  }

  /** A line that matches the marker pattern up to the end delimiter, is legal here, and goes on after it. */
  predicate TrailingContent(s: State, line: string, d: Delimiters)
  {
    var p := MatchMarker(line, d, false);
    p.Some? && ValidForState(p.value.name, s) && |line| > p.value.length
  }

  // ---------------------------------------------------------------------------
  // One line

  function Step(v: Vars, line: string, n: nat, d: Delimiters): Result<Vars, ParseError>
  {
    if StartsWith(line, d.start) then MarkerStep(v, line, n, d) else Content(v, line, n, d)
  }

  /** A line that starts with the start delimiter. */
  function MarkerStep(v: Vars, line: string, n: nat, d: Delimiters): Result<Vars, ParseError>
  {
    var m := MatchMarker(line, d, true);
    if m.Some? then
      if AcceptsMarker(v.state, m.value.name) then HandleMarker(v, m.value.name, m.value.attributes, n)
      else Content(v, line, n, d)
    else if TrailingContent(v.state, line, d) then Err(ParseError(n, ContentOnMarkerLine))
    else if v.state == Idle || v.state == TasksState then Err(ParseError(n, MalformedMarker))
    else Content(v, line, n, d)
  }

  /** A line that is not taken as a marker. */
  function Content(v: Vars, line: string, n: nat, d: Delimiters): Result<Vars, ParseError>
  {
    if v.state != Idle && v.currentOp.Some? && v.state != TasksState then Ok(Collect(v, line))
    else if (v.state == Idle || v.state == TasksState) && StartsWith(line, d.start) then
      Err(ParseError(n, MalformedMarker))
    else Ok(v)
  }

  /** The line goes to the buffer of the current section. */
  function Collect(v: Vars, line: string): Vars
  {
    match v.state
    case SearchPattern => v.(pattern := v.pattern + [line])
    case SearchTo => v.(to := v.to + [line])
    case SearchReplacement => v.(replacement := v.replacement + [line])
    case _ => v.(content := v.content + [line])
  }

  function HandleMarker(v: Vars, name: string, attrText: string, n: nat): Result<Vars, ParseError>
  {
    if name == "END" then End(v, attrText, n)
    else if StarterKind(name).Some? then Start(v, StarterKind(name).value, name, attrText, n)
    else if name == "TO" then
      if v.state != SearchPattern then Err(ParseError(n, MarkerNotValid(name, StateText(v.state))))
      else Ok(v.(state := SearchTo))
    else if name == "REPLACE" then
      if v.state != SearchPattern && v.state != SearchTo then
        Err(ParseError(n, MarkerNotValid(name, StateText(v.state))))
      else Ok(v.(state := SearchReplacement))
    else Err(ParseError(n, UnknownOperation(name)))
  }

  /** The finished operation: the fields set at its END marker come from the buffers of `state`. */
  function Completed(op: Draft, state: State, content: seq<string>, pattern: seq<string>, to: seq<string>,
                     replacement: seq<string>): Operation
  {
    match op.kind
    case WRITE => Write(op.line, op.attributes, Join(content))
    case RUN => Run(op.line, op.attributes, Join(content))
    case SEARCH =>
      if state == SearchReplacement then
        Search(op.line, op.attributes, Some(Join(pattern)), if |to| > 0 then Some(Join(to)) else None,
               Some(Join(replacement)))
      else Search(op.line, op.attributes, None, None, None)
    case TASKS => Tasks(op.line, op.attributes, op.operations)
  }

  function Finished(v: Vars): Operation
    requires v.currentOp.Some?
  {
    Completed(v.currentOp.value, v.state, v.content, v.pattern, v.to, v.replacement)
  }

  /** An END marker. */
  function End(v: Vars, attrText: string, n: nat): Result<Vars, ParseError>
  {
    if v.state == Idle || v.currentOp.None? then Err(ParseError(n, EndWithoutActiveOperation))
    else if !IsBlank(attrText) then Err(ParseError(n, EndWithAttributes))
    else if v.state == TasksState && v.currentOp == v.tasksOp then
      Ok(Initial.(operations := v.operations + [Finished(v)]))
    else
      var op := Finished(v);
      var w :=
        if v.insideTasks && v.state != TasksState && v.tasksOp.Some? then
          var t := v.tasksOp.value.(operations := v.tasksOp.value.operations + [op]);
          v.(tasksOp := Some(t), state := TasksState, currentOp := Some(t))
        else if !v.insideTasks then v.(operations := v.operations + [op], state := Idle, currentOp := None)
        else v;
      Ok(w.(content := [], pattern := [], to := [], replacement := []))
  }

  /** The attributes of an opening marker; no attribute text declares none. */
  function MarkerAttributes(attrText: string, n: nat): Result<Attributes, ParseError>
  {
    if attrText != "" then Scan.AtLine(Scan.ScanAttributes(attrText, 0, []), n) else Ok([])
  }

  /** An opening marker. */
  function Start(v: Vars, k: Kind, name: string, attrText: string, n: nat): Result<Vars, ParseError>
  {
    if k == TASKS && v.insideTasks then Err(ParseError(n, TasksNested))
    else if v.state != Idle && v.state != TasksState then Err(ParseError(n, MarkerNotValid(name, StateText(v.state))))
    else
      var attrs := MarkerAttributes(attrText, n);
      if attrs.Err? then Err(attrs.error)
      else
        var op := Draft(k, n, attrs.value, []);
        if k == TASKS then Ok(v.(currentOp := Some(op), tasksOp := Some(op), insideTasks := true, state := TasksState))
        else Ok(v.(currentOp := Some(op), state := StateOf(k)))
  }

  // ---------------------------------------------------------------------------
  // The whole text

  /** The loop over `lines`, the first of which is line `n`. */
  function Feed(v: Vars, lines: seq<string>, n: nat, d: Delimiters): Result<Vars, ParseError>
    decreases |lines|
  {
    if |lines| == 0 then Ok(v)
    else
      var r := Step(v, lines[0], n, d);
      if r.Err? then r else Feed(r.value, lines[1..], n + 1, d)
  }

  /** After the last line: an operation still open is an error. */
  function Finish(v: Vars): Result<seq<Operation>, ParseError>
  {
    if v.state != Idle && v.currentOp.Some? then
      if IsSearchState(v.state) then Err(ParseError(v.currentOp.value.line, Unterminated("SEARCH")))
      else if v.state == TasksState && v.tasksOp.Some? then Err(ParseError(v.tasksOp.value.line, Unterminated("TASKS")))
      else Err(ParseError(v.currentOp.value.line, Unterminated(StateText(v.state))))
    else Ok(v.operations)
  }

  /** The loop from line `i` on, unfolded once. */
  lemma FeedFrom(v: Vars, lines: seq<string>, i: nat, n: nat, d: Delimiters)
    requires i < |lines|
    ensures Feed(v, lines[i..], n, d) ==
            (var r := Step(v, lines[i], n, d); if r.Err? then r else Feed(r.value, lines[i + 1..], n + 1, d))
  {
    assert lines[i..][0] == lines[i];
    assert lines[i..][1..] == lines[i + 1..];
  }

  /** A line taken as a marker is handled by its name and attribute text. */
  lemma StepMarker(v: Vars, line: string, n: nat, d: Delimiters)
    requires StartsWith(line, d.start) && MatchMarker(line, d, true).Some?
    requires AcceptsMarker(v.state, MatchMarker(line, d, true).value.name)
    ensures Step(v, line, n, d) ==
            HandleMarker(v, MatchMarker(line, d, true).value.name, MatchMarker(line, d, true).value.attributes, n)
  {
  }

  /** A line not taken as a marker, and not rejected as a malformed one, is content. */
  lemma StepContent(v: Vars, line: string, n: nat, d: Delimiters)
    requires StartsWith(line, d.start) ==>
      if MatchMarker(line, d, true).Some? then !AcceptsMarker(v.state, MatchMarker(line, d, true).value.name)
      else !TrailingContent(v.state, line, d) && v.state != Idle && v.state != TasksState
    ensures Step(v, line, n, d) == Content(v, line, n, d)
  {
  }

  /** `parse(text, options)`. */
  function ParseText(text: string, options: ParseOptions): Result<seq<Operation>, ParseError>
  {
    var r := Feed(Initial, SplitLines(text), 1, DelimitersOf(options));
    if r.Err? then Err(r.error) else Finish(r.value)
  }
}
