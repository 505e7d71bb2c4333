/**
 * `parse`: the loop over the lines of the text, with the parser's own local
 * variables, proved to compute `Machine.ParseText`.
 */
module Parser {
  import opened Wrappers
  import opened Text
  import opened Ast
  import opened Markers
  import opened Machine
  import Scan = Attributes

  method Parse(text: string, options: ParseOptions) returns (r: Result<seq<Operation>, ParseError>)
    ensures r == ParseText(text, options)
  {
    var d := DelimitersOf(options);
    var lines := SplitLines(text);
    var operations: seq<Operation> := [];

    var lineNum: nat := 1;
    var state := Idle;
    var currentOp: Option<Draft> := None;
    var contentBuffer: seq<string> := [];
    var insideTasks := false;
    var tasksOp: Option<Draft> := None;

    var searchPattern: seq<string> := [];
    var searchTo: seq<string> := [];
    var searchReplacement: seq<string> := [];

    var i := 0;
    while i < |lines|
      invariant 0 <= i <= |lines| && lineNum == i + 1
      invariant Feed(Vars(state, currentOp, insideTasks, tasksOp, contentBuffer, searchPattern, searchTo,
                          searchReplacement, operations), lines[i..], lineNum, d)
                == Feed(Initial, lines, 1, d)
    {
      var line := lines[i];
      var v := Vars(state, currentOp, insideTasks, tasksOp, contentBuffer, searchPattern, searchTo,
                    searchReplacement, operations);
      FeedFrom(v, lines, i, lineNum, d);

      var isMarker := false;
      var markerMatch: Option<MarkerMatch> := None;

      if StartsWith(line, d.start) {
        markerMatch := MatchMarker(line, d, true);
        if markerMatch.Some? {
          isMarker := AcceptsMarker(state, markerMatch.value.name);
        } else {
          // a marker followed by trailing text, or a malformed one
          var partialMatch := MatchMarker(line, d, false);
          if partialMatch.Some? {
            var wouldBeValidMarker := ValidForState(partialMatch.value.name, state);
            if wouldBeValidMarker && |line| > partialMatch.value.length {
              return Err(ParseError(lineNum, ContentOnMarkerLine));
            }
          }
          if state == Idle || state == TasksState {
            return Err(ParseError(lineNum, MalformedMarker));
          }
        }
      }

      var next: Result<Vars, ParseError>;
      if isMarker && markerMatch.Some? {
        StepMarker(v, line, lineNum, d);
        next := HandleMarkerLine(v, markerMatch.value.name, markerMatch.value.attributes, lineNum);
      } else {
        StepContent(v, line, lineNum, d);
        next := ContentLine(v, line, lineNum, d);
      }
      if next.Err? {
        return Err(next.error);
      }
      var w := next.value;
      state, currentOp, insideTasks, tasksOp := w.state, w.currentOp, w.insideTasks, w.tasksOp;
      contentBuffer, searchPattern, searchTo, searchReplacement := w.content, w.pattern, w.to, w.replacement;
      operations := w.operations;

      lineNum := lineNum + 1;
      i := i + 1;
    }

    // an operation still open
    if state != Idle && currentOp.Some? {
      var opType := StateText(state);
      if IsSearchState(state) {
        opType := "SEARCH";
      } else if state == TasksState && tasksOp.Some? {
        return Err(ParseError(tasksOp.value.line, Unterminated("TASKS")));
      }
      return Err(ParseError(currentOp.value.line, Unterminated(opType)));
    }
    return Ok(operations);
  }

  /** A line not taken as a marker: it goes to the buffer of the current section, if there is one (the statement form of `Machine.Content`). */
  method ContentLine(v: Vars, line: string, lineNum: nat, d: Delimiters) returns (r: Result<Vars, ParseError>)
    ensures r == Content(v, line, lineNum, d)
  {
    r := Ok(v);
    if v.state != Idle && v.currentOp.Some? && v.state != TasksState {
      if v.state == SearchPattern {
        r := Ok(v.(pattern := v.pattern + [line]));
      } else if v.state == SearchTo {
        r := Ok(v.(to := v.to + [line]));
      } else if v.state == SearchReplacement {
        r := Ok(v.(replacement := v.replacement + [line]));
      } else {
        r := Ok(v.(content := v.content + [line]));
      }
    } else if (v.state == Idle || v.state == TasksState) && StartsWith(line, d.start) {
      r := Err(ParseError(lineNum, MalformedMarker));
    }
  }

  /** A line taken as a marker: END, an opening marker, TO, REPLACE, or an unknown name (the statement form of `Machine.HandleMarker`). */
  method HandleMarkerLine(v: Vars, opName: string, attrString: string, lineNum: nat)
    returns (r: Result<Vars, ParseError>)
    ensures r == HandleMarker(v, opName, attrString, lineNum)
  {
    if opName == "END" {
      r := EndMarker(v, attrString, lineNum);
    } else if StarterKind(opName).Some? {
      r := StartMarker(v, StarterKind(opName).value, opName, attrString, lineNum);
    } else if opName == "TO" {
      if v.state != SearchPattern {
        return Err(ParseError(lineNum, MarkerNotValid(opName, StateText(v.state))));
      }
      r := Ok(v.(state := SearchTo));
    } else if opName == "REPLACE" {
      if v.state != SearchPattern && v.state != SearchTo {
        return Err(ParseError(lineNum, MarkerNotValid(opName, StateText(v.state))));
      }
      r := Ok(v.(state := SearchReplacement));
    } else {
      r := Err(ParseError(lineNum, UnknownOperation(opName)));
    }
  }

  /** An END marker: the current operation is finished and goes to its TASKS or to the result (the statement form of `Machine.End`). */
  method EndMarker(v: Vars, attrString: string, lineNum: nat) returns (r: Result<Vars, ParseError>)
    ensures r == End(v, attrString, lineNum)
  {
    if v.state == Idle || v.currentOp.None? {
      return Err(ParseError(lineNum, EndWithoutActiveOperation));
    }
    if !IsBlank(attrString) {
      return Err(ParseError(lineNum, EndWithAttributes));
    }
    var done := Completed(v.currentOp.value, v.state, v.content, v.pattern, v.to, v.replacement);
    if v.state == TasksState && v.currentOp == v.tasksOp {
      // the TASKS block ends: every variable is reset
      return Ok(Initial.(operations := v.operations + [done]));
    }
    var w := v;
    if w.insideTasks && w.state != TasksState && w.tasksOp.Some? {
      var tasksOp := w.tasksOp.value.(operations := w.tasksOp.value.operations + [done]);
      w := w.(tasksOp := Some(tasksOp), state := TasksState, currentOp := Some(tasksOp));
    } else if !w.insideTasks {
      w := w.(operations := w.operations + [done], state := Idle, currentOp := None);
    }
    w := w.(content := [], pattern := [], to := [], replacement := []);
    return Ok(w);
  }

  /** An opening marker: a new current operation, with its attributes read from the marker (the statement form of `Machine.Start`). */
  method StartMarker(v: Vars, kind: Kind, opName: string, attrString: string, lineNum: nat)
    returns (r: Result<Vars, ParseError>)
    ensures r == Start(v, kind, opName, attrString, lineNum)
  {
    if kind == TASKS && v.insideTasks {
      return Err(ParseError(lineNum, TasksNested));
    }
    if v.state != Idle && v.state != TasksState {
      return Err(ParseError(lineNum, MarkerNotValid(opName, StateText(v.state))));
    }
    var attrs: Attributes := [];
    if attrString != "" {
      var parsed := Scan.ParseAttributes(attrString, lineNum);
      if parsed.Err? {
        return Err(parsed.error);
      }
      attrs := parsed.value;
    }
    var currentOp := Draft(kind, lineNum, attrs, []);
    if kind == TASKS {
      r := Ok(v.(currentOp := Some(currentOp), tasksOp := Some(currentOp), insideTasks := true, state := TasksState));
    } else {
      r := Ok(v.(currentOp := Some(currentOp), state := StateOf(kind)));
    }
  }
}
