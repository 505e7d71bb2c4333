/**
 * What the state machine guarantees: the invariant every line keeps, the
 * shape of the operations it returns (no TASKS inside a TASKS), the range of
 * the line numbers in its errors, and the error it never raises.
 */
module ParseFacts {
  import opened Wrappers
  import opened Text
  import opened Ast
  import opened Markers
  import opened Machine
  import Scan = Attributes

  /** The open operation's type agrees with the section being read. */
  predicate KindMatches(k: Kind, s: State)
  {
    s == StateOf(k) || (k == SEARCH && IsSearchState(s))
  }

  predicate EmptyBuffers(v: Vars)
  {
    v.content == [] && v.pattern == [] && v.to == [] && v.replacement == []
  }

  /**
   * The relations between the parser's variables that hold between any two
   * lines. In particular `currentOp` is `tasksOp` whenever the state is TASKS,
   * and an operation is open exactly when there is a state.
   */
  predicate Inv(v: Vars)
  {
    && (v.state == Idle <==> v.currentOp.None?)
    && (v.insideTasks <==> v.tasksOp.Some?)
    && (v.state == Idle ==> !v.insideTasks)
    && (v.state == TasksState ==> v.currentOp == v.tasksOp)
    && (v.currentOp.Some? && v.state != TasksState ==>
          v.currentOp.value.kind != TASKS && KindMatches(v.currentOp.value.kind, v.state))
    && (v.tasksOp.Some? ==> v.tasksOp.value.kind == TASKS && NoTasks(v.tasksOp.value.operations))
    && AllFlat(v.operations)
    && (v.state == Idle || v.state == TasksState ==> EmptyBuffers(v))
  }

  /** The open operations started on lines `1 .. n - 1`. */
  predicate OpenBefore(v: Vars, n: nat)
  {
    && (v.currentOp.Some? ==> 1 <= v.currentOp.value.line < n)
    && (v.tasksOp.Some? ==> 1 <= v.tasksOp.value.line < n)
  }

  lemma InitialInv()
    ensures Inv(Initial) && OpenBefore(Initial, 1)
  {
  }

  // ---------------------------------------------------------------------------
  // One line keeps the invariant

  lemma ContentInv(v: Vars, line: string, n: nat, d: Delimiters)
    requires Inv(v) && Content(v, line, n, d).Ok?
    ensures Inv(Content(v, line, n, d).value)
    ensures Content(v, line, n, d).value.currentOp == v.currentOp
    ensures Content(v, line, n, d).value.tasksOp == v.tasksOp
  {
  }

  lemma StartInv(v: Vars, k: Kind, name: string, attrText: string, n: nat)
    requires Inv(v) && Start(v, k, name, attrText, n).Ok?
    ensures Inv(Start(v, k, name, attrText, n).value)
    ensures OpenBefore(v, n) && n >= 1 ==> OpenBefore(Start(v, k, name, attrText, n).value, n + 1)
  {
  }

  lemma EndInv(v: Vars, attrText: string, n: nat)
    requires Inv(v) && End(v, attrText, n).Ok?
    ensures Inv(End(v, attrText, n).value)
    ensures OpenBefore(v, n) ==> OpenBefore(End(v, attrText, n).value, n + 1)
  {
    var w := End(v, attrText, n).value;
    if v.state == TasksState {
      assert w.operations == v.operations + [Finished(v)];
      assert AllFlat(w.operations) by {
        forall j | 0 <= j < |w.operations|
          ensures Flat(w.operations[j])
        {
          if j < |v.operations| {
            assert w.operations[j] == v.operations[j];
          }
        }
      }
    } else {
      var op := Finished(v);
      assert !op.Tasks?;
      if v.insideTasks {
        var ops := v.tasksOp.value.operations;
        assert NoTasks(ops + [op]) by {
          forall j | 0 <= j < |ops + [op]|
            ensures !(ops + [op])[j].Tasks?
          {
            if j < |ops| {
              assert (ops + [op])[j] == ops[j];
            }
          }
        }
      } else {
        assert AllFlat(v.operations + [op]) by {
          forall j | 0 <= j < |v.operations + [op]|
            ensures Flat((v.operations + [op])[j])
          {
            if j < |v.operations| {
              assert (v.operations + [op])[j] == v.operations[j];
            }
          }
        }
      }
    }
  }

  lemma HandleMarkerInv(v: Vars, name: string, attrText: string, n: nat)
    requires Inv(v) && HandleMarker(v, name, attrText, n).Ok?
    ensures Inv(HandleMarker(v, name, attrText, n).value)
    ensures OpenBefore(v, n) && n >= 1 ==> OpenBefore(HandleMarker(v, name, attrText, n).value, n + 1)
  {
    if name == "END" {
      EndInv(v, attrText, n);
    } else if StarterKind(name).Some? {
      StartInv(v, StarterKind(name).value, name, attrText, n);
    }
  }

  /** Every line that is read keeps the invariant, and what is open was opened on a line already read. */
  lemma StepInv(v: Vars, line: string, n: nat, d: Delimiters)
    requires Inv(v) && Step(v, line, n, d).Ok?
    ensures Inv(Step(v, line, n, d).value)
    ensures OpenBefore(v, n) && n >= 1 ==> OpenBefore(Step(v, line, n, d).value, n + 1)
  {
    if StartsWith(line, d.start) {
      var m := MatchMarker(line, d, true);
      if m.Some? && AcceptsMarker(v.state, m.value.name) {
        HandleMarkerInv(v, m.value.name, m.value.attributes, n);
      } else {
        ContentInv(v, line, n, d);
      }
    } else {
      ContentInv(v, line, n, d);
    }
  }

  /** Every error raised while reading line `n` is reported at line `n`. */
  lemma StepErrorLine(v: Vars, line: string, n: nat, d: Delimiters)
    requires Step(v, line, n, d).Err?
    ensures Step(v, line, n, d).error.line == n
  {
    if StartsWith(line, d.start) {
      var m := MatchMarker(line, d, true);
      if m.Some? && AcceptsMarker(v.state, m.value.name) {
        var name, a := m.value.name, m.value.attributes;
        if name != "END" && StarterKind(name).Some? {
          assert MarkerAttributes(a, n).Err? ==> MarkerAttributes(a, n).error.line == n;
        }
      }
    }
  }

  lemma {:induction false} FeedInv(v: Vars, lines: seq<string>, n: nat, d: Delimiters)
    requires Inv(v) && OpenBefore(v, n) && n >= 1
    ensures Feed(v, lines, n, d).Ok? ==> Inv(Feed(v, lines, n, d).value)
    ensures Feed(v, lines, n, d).Ok? ==> OpenBefore(Feed(v, lines, n, d).value, n + |lines|)
    decreases |lines|
  {
    if |lines| > 0 && Step(v, lines[0], n, d).Ok? {
      StepInv(v, lines[0], n, d);
      FeedInv(Step(v, lines[0], n, d).value, lines[1..], n + 1, d);
    }
  }

  lemma {:induction false} FeedErrorLine(v: Vars, lines: seq<string>, n: nat, d: Delimiters)
    requires Feed(v, lines, n, d).Err?
    ensures n <= Feed(v, lines, n, d).error.line < n + |lines|
    decreases |lines|
  {
    if Step(v, lines[0], n, d).Err? {
      StepErrorLine(v, lines[0], n, d);
    } else {
      FeedErrorLine(Step(v, lines[0], n, d).value, lines[1..], n + 1, d);
    }
  }

  /** After the last line, the parse fails exactly when an operation is still open, at the line that opened it. */
  lemma FinishOpen(v: Vars, n: nat)
    requires Inv(v) && OpenBefore(v, n)
    ensures Finish(v).Ok? <==> v.state == Idle
    ensures Finish(v).Ok? ==> Finish(v).value == v.operations
    ensures Finish(v).Err? ==> 1 <= Finish(v).error.line < n
    ensures Finish(v).Err? ==> Finish(v).error.line == v.currentOp.value.line
  {
  }

  // ---------------------------------------------------------------------------
  // The whole parse

  /** A parse that succeeds returns operations none of which is a TASKS inside a TASKS. */
  lemma ParseFlat(text: string, options: ParseOptions)
    requires ParseText(text, options).Ok?
    ensures AllFlat(ParseText(text, options).value)
  {
    var lines, d := SplitLines(text), DelimitersOf(options);
    InitialInv();
    FeedInv(Initial, lines, 1, d);
    FinishOpen(Feed(Initial, lines, 1, d).value, 1 + |lines|);
  }

  /** A parse that fails names a line of the text. */
  lemma ParseErrorLine(text: string, options: ParseOptions)
    requires ParseText(text, options).Err?
    ensures 1 <= ParseText(text, options).error.line <= |SplitLines(text)|
  {
    var lines, d := SplitLines(text), DelimitersOf(options);
    if Feed(Initial, lines, 1, d).Err? {
      FeedErrorLine(Initial, lines, 1, d);
    } else {
      InitialInv();
      FeedInv(Initial, lines, 1, d);
      FinishOpen(Feed(Initial, lines, 1, d).value, 1 + |lines|);
    }
  }

  // ---------------------------------------------------------------------------
  // An error that cannot be raised

  /** An opening marker misplaced inside a section: the check for it is never reached. */
  predicate MisplacedStarter(e: ParseError)
  {
    e.reason.MarkerNotValid? && StarterKind(e.reason.marker).Some?
  }

  lemma HandleMarkerNoMisplacedStarter(v: Vars, name: string, attrText: string, n: nat)
    requires AcceptsMarker(v.state, name) && HandleMarker(v, name, attrText, n).Err?
    ensures !MisplacedStarter(HandleMarker(v, name, attrText, n).error)
  {
    if name != "END" && StarterKind(name).Some? {
      assert v.state == Idle || v.state == TasksState;
      if attrText != "" && Scan.ScanAttributes(attrText, 0, []).Err? {
        Scan.ScanErrors(attrText, 0, []);
      }
    }
  }

  lemma StepNoMisplacedStarter(v: Vars, line: string, n: nat, d: Delimiters)
    requires Step(v, line, n, d).Err?
    ensures !MisplacedStarter(Step(v, line, n, d).error)
  {
    if StartsWith(line, d.start) {
      var m := MatchMarker(line, d, true);
      if m.Some? && AcceptsMarker(v.state, m.value.name) {
        HandleMarkerNoMisplacedStarter(v, m.value.name, m.value.attributes, n);
      }
    }
  }

  lemma {:induction false} FeedNoMisplacedStarter(v: Vars, lines: seq<string>, n: nat, d: Delimiters)
    requires Feed(v, lines, n, d).Err?
    ensures !MisplacedStarter(Feed(v, lines, n, d).error)
    decreases |lines|
  {
    if Step(v, lines[0], n, d).Err? {
      StepNoMisplacedStarter(v, lines[0], n, d);
    } else {
      FeedNoMisplacedStarter(Step(v, lines[0], n, d).value, lines[1..], n + 1, d);
    }
  }

  /** `WRITE marker not valid in ... operation` and its kin are never reported. */
  lemma ParseNoMisplacedStarter(text: string, options: ParseOptions)
    requires ParseText(text, options).Err?
    ensures !MisplacedStarter(ParseText(text, options).error)
  {
    var lines, d := SplitLines(text), DelimitersOf(options);
    if Feed(Initial, lines, 1, d).Err? {
      FeedNoMisplacedStarter(Initial, lines, 1, d);
    }
  }
}
