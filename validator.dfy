/**
 * The semantic checks run over a parsed AST: required attributes, attribute
 * values, empty sections and TASKS nesting. Every problem found is reported;
 * none stops the checking. The functions give the reported list; the class
 * `ErrorLog` is the shared `errors` array the checking methods push onto.
 */
module Validator {
  import opened Wrappers
  import opened Text
  import opened Ast

  /** One reported problem; `parentTaskLine` is the line of the enclosing TASKS, when there is one. */
  datatype ValidationError = ValidationError(line: nat, operation: string, error: string,
                                             field: Option<string>, parentTaskLine: Option<nat>)

  const MissingFile := "Missing required attribute 'file'"
  const InvalidCount := "Invalid value for 'count': must be positive integer or 'all'"
  const InvalidAppend := "Invalid value for 'append': must be 'true' or 'false'"
  const EmptyRunContent := "Empty content not allowed for RUN operation"
  const EmptyPattern := "Empty search pattern not allowed"
  const EmptyTo := "Empty TO pattern not allowed"
  const NestedTasks := "TASKS cannot contain other TASKS operations"

  /** A problem with `op`, reported at its line under its type. */
  function Report(op: Operation, error: string, field: Option<string>, parent: Option<nat>): (e: ValidationError)
    ensures e.line == op.line && e.operation == KindName(op.Kind()) && e.error == error
    ensures e.field == field && e.parentTaskLine == parent
  {
    ValidationError(op.line, KindName(op.Kind()), error, field, parent)
  }

  /** `op.file` is truthy: declared, and not the empty string. */
  predicate HasFile(op: Operation)
  {
    var file := Lookup(op.attributes, "file");
    file.Some? && file.value != ""
  }

  predicate AllDigits(s: string)
  {
    forall k :: 0 <= k < |s| ==> '0' <= s[k] <= '9'
  }

  /** `isValidCount`: `'all'`, or a decimal integer greater than zero. */
  predicate IsValidCount(count: string)
  {
    count == "all" || (|count| >= 1 && AllDigits(count) && DigitsValue(count) > 0)
  }

  // ---------------------------------------------------------------------------
  // The reported problems, as functions

  /** `validateRequiredAttributes`: WRITE and SEARCH need a file. */
  function RequiredErrors(op: Operation, parent: Option<nat>): seq<ValidationError>
  {
    if (op.Write? || op.Search?) && !HasFile(op) then [Report(op, MissingFile, None, parent)] else []
  }

  /** `validateAttributeValues`: `count` on a SEARCH and `append` on a WRITE. */
  function ValueErrors(op: Operation, parent: Option<nat>): seq<ValidationError>
  {
    var count := Lookup(op.attributes, "count");
    var append := Lookup(op.attributes, "append");
    (if count.Some? && op.Search? && !IsValidCount(count.value)
     then [Report(op, InvalidCount, Some("count"), parent)] else [])
    + (if append.Some? && op.Write? && append.value != "true" && append.value != "false"
       then [Report(op, InvalidAppend, Some("append"), parent)] else [])
  }

  /** `validateContent`: a RUN needs content, and a SEARCH pattern or TO section must not be empty. */
  function ContentErrors(op: Operation, parent: Option<nat>): seq<ValidationError>
  {
    match op
    case Run(_, _, content) => if content == "" then [Report(op, EmptyRunContent, None, parent)] else []
    case Search(_, _, pattern, to, _) =>
      (if pattern == Some("") then [Report(op, EmptyPattern, None, parent)] else [])
      + (if to == Some("") then [Report(op, EmptyTo, None, parent)] else [])
    case _ => []
  }

  /** `validateOperation`: the checks of `op`, then for a TASKS its nesting and its operations. */
  function OperationErrors(op: Operation, parent: Option<nat>): seq<ValidationError>
    decreases op, 1
  {
    RequiredErrors(op, parent) + ValueErrors(op, parent) + ContentErrors(op, parent)
    + (if op.Tasks? then NestingErrors(op, parent) + ListErrors(op.operations, Some(op.line)) else [])
  }

  /** The report of a TASKS found inside a TASKS; it carries no `parentTaskLine`. */
  function NestingReport(op: Operation): ValidationError
  {
    ValidationError(op.line, "TASKS", NestedTasks, None, None)
  }

  /** A TASKS checked with an enclosing TASKS is reported as nested. */
  function NestingErrors(op: Operation, parent: Option<nat>): seq<ValidationError>
  {
    if parent.Some? then [NestingReport(op)] else []
  }

  /** The problems of a list of operations, in order. */
  function ListErrors(ops: seq<Operation>, parent: Option<nat>): seq<ValidationError>
    decreases ops, 0
  {
    if |ops| == 0 then [] else OperationErrors(ops[0], parent) + ListErrors(ops[1..], parent)
  }

  /** `validate(ast)`. */
  function Errors(ast: seq<Operation>): seq<ValidationError>
  {
    ListErrors(ast, None)
  }

  // ---------------------------------------------------------------------------
  // The checking, as the methods that push onto the shared error list

  class ErrorLog {
    var errors: seq<ValidationError>

    constructor ()
      ensures errors == []
    {
      errors := [];
    }

    method Push(e: ValidationError)
      modifies this
      ensures errors == old(errors) + [e]
    {
      errors := errors + [e];
    }

    method ValidateRequiredAttributes(op: Operation, parentTaskLine: Option<nat>)
      modifies this
      ensures errors == old(errors) + RequiredErrors(op, parentTaskLine)
    {
      match op {
        case Write(_, _, _) =>
          if !HasFile(op) {
            Push(Report(op, MissingFile, None, parentTaskLine));
          }
        case Search(_, _, _, _, _) =>
          if !HasFile(op) {
            Push(Report(op, MissingFile, None, parentTaskLine));
          }
        case _ =>
      }
    }

    method ValidateAttributeValues(op: Operation, parentTaskLine: Option<nat>)
      modifies this
      ensures errors == old(errors) + ValueErrors(op, parentTaskLine)
    {
      var count := Lookup(op.attributes, "count");
      if count.Some? && op.Search? {
        if !IsValidCount(count.value) {
          Push(Report(op, InvalidCount, Some("count"), parentTaskLine));
        }
      }
      var append := Lookup(op.attributes, "append");
      if append.Some? && op.Write? {
        if append.value != "true" && append.value != "false" {
          Push(Report(op, InvalidAppend, Some("append"), parentTaskLine));
        }
      }
    }

    method ValidateContent(op: Operation, parentTaskLine: Option<nat>)
      modifies this
      ensures errors == old(errors) + ContentErrors(op, parentTaskLine)
    {
      match op {
        case Run(_, _, content) =>
          if content == "" {
            Push(Report(op, EmptyRunContent, None, parentTaskLine));
          }
        case Search(_, _, pattern, to, _) =>
          if pattern == Some("") {
            Push(Report(op, EmptyPattern, None, parentTaskLine));
          }
          if to == Some("") {
            Push(Report(op, EmptyTo, None, parentTaskLine));
          }
        case _ =>
      }
    }

    method ValidateOperation(op: Operation, parentTaskLine: Option<nat>)
      modifies this
      ensures errors == old(errors) + OperationErrors(op, parentTaskLine)
      decreases op
    {
      ghost var start := errors;
      ValidateRequiredAttributes(op, parentTaskLine);
      ValidateAttributeValues(op, parentTaskLine);
      ValidateContent(op, parentTaskLine);
      ghost var own := RequiredErrors(op, parentTaskLine) + ValueErrors(op, parentTaskLine)
                       + ContentErrors(op, parentTaskLine);
      Append3(start, RequiredErrors(op, parentTaskLine), ValueErrors(op, parentTaskLine),
              ContentErrors(op, parentTaskLine));
      if op.Tasks? {
        if parentTaskLine.Some? {
          Push(NestingReport(op));
        }
        ghost var before := errors;
        var k := 0;
        while k < |op.operations|
          invariant 0 <= k <= |op.operations|
          invariant errors == before + ListErrors(op.operations[..k], Some(op.line))
        {
          ValidateOperation(op.operations[k], Some(op.line));
          ListErrorsSnoc(op.operations, k, Some(op.line));
          Append2(before, ListErrors(op.operations[..k], Some(op.line)), OperationErrors(op.operations[k], Some(op.line)));
          k := k + 1;
        }
        assert op.operations[..k] == op.operations;
        AppendRight(start, own, NestingErrors(op, parentTaskLine), ListErrors(op.operations, Some(op.line)));
      } else {
        assert own + [] == own;
      }
    }
  }

  /** `validate`: every operation of the AST is checked, at the top level. */
  method Validate(ast: seq<Operation>) returns (errors: seq<ValidationError>)
    ensures errors == Errors(ast)
  {
    var log := new ErrorLog();
    var k := 0;
    while k < |ast|
      invariant 0 <= k <= |ast|
      invariant log.errors == ListErrors(ast[..k], None)
    {
      log.ValidateOperation(ast[k], None);
      ListErrorsSnoc(ast, k, None);
      k := k + 1;
    }
    assert ast[..k] == ast;
    errors := log.errors;
  }

  // ---------------------------------------------------------------------------
  // Properties

  lemma Append2<T>(a: seq<T>, b: seq<T>, c: seq<T>)
    ensures (a + b) + c == a + (b + c)
  {
  }

  lemma Append3<T>(a: seq<T>, b: seq<T>, c: seq<T>, d: seq<T>)
    ensures ((a + b) + c) + d == a + ((b + c) + d)
  {
  }

  lemma AppendRight<T>(a: seq<T>, b: seq<T>, c: seq<T>, d: seq<T>)
    ensures ((a + b) + c) + d == a + (b + (c + d))
  {
  }

  /** The problems of a list are those of its parts, in order. */
  lemma {:induction false} ListErrorsAppend(a: seq<Operation>, b: seq<Operation>, parent: Option<nat>)
    ensures ListErrors(a + b, parent) == ListErrors(a, parent) + ListErrors(b, parent)
    decreases |a|
  {
    if |a| == 0 {
      assert a + b == b;
    } else {
      assert (a + b)[0] == a[0];
      assert (a + b)[1..] == a[1..] + b;
      ListErrorsAppend(a[1..], b, parent);
      assert ListErrors(a + b, parent)
             == OperationErrors(a[0], parent) + (ListErrors(a[1..], parent) + ListErrors(b, parent));
      Append2(OperationErrors(a[0], parent), ListErrors(a[1..], parent), ListErrors(b, parent));
    }
  }

  lemma ListErrorsSnoc(ops: seq<Operation>, k: nat, parent: Option<nat>)
    requires k < |ops|
    ensures ListErrors(ops[..k + 1], parent) == ListErrors(ops[..k], parent) + OperationErrors(ops[k], parent)
  {
    assert ops[..k + 1] == ops[..k] + [ops[k]];
    ListErrorsAppend(ops[..k], [ops[k]], parent);
    assert [ops[k]][1..] == [];
  }

  // ---------------------------------------------------------------------------
  // What the reports mean

  /** The `count` attribute, if declared, is acceptable. */
  predicate CountOk(attrs: Attributes)
  {
    Lookup(attrs, "count").None? || IsValidCount(Lookup(attrs, "count").value)
  }

  /** The `append` attribute, if declared, is `true` or `false`. */
  predicate AppendOk(attrs: Attributes)
  {
    Lookup(attrs, "append").None? || Lookup(attrs, "append").value in {"true", "false"}
  }

  /** The conditions under which an operation is accepted, stated per operation type. */
  predicate Acceptable(op: Operation, parent: Option<nat>)
    decreases op
  {
    match op
    case Write(_, attrs, _) => HasFile(op) && AppendOk(attrs)
    case Run(_, _, content) => content != ""
    case Search(_, attrs, pattern, to, _) => HasFile(op) && CountOk(attrs) && pattern != Some("") && to != Some("")
    case Tasks(line, _, ops) => parent.None? && forall k :: 0 <= k < |ops| ==> Acceptable(ops[k], Some(line))
  }

  /** An operation draws no report exactly when it is acceptable. */
  lemma {:induction false} NoErrorsIffAcceptable(op: Operation, parent: Option<nat>)
    ensures OperationErrors(op, parent) == [] <==> Acceptable(op, parent)
    decreases op, 1
  {
    if op.Tasks? {
      NoListErrorsIffAcceptable(op.operations, Some(op.line));
    }
  }

  /** A list draws no report exactly when each of its operations is acceptable. */
  lemma {:induction false} NoListErrorsIffAcceptable(ops: seq<Operation>, parent: Option<nat>)
    ensures ListErrors(ops, parent) == [] <==> forall k :: 0 <= k < |ops| ==> Acceptable(ops[k], parent)
    decreases ops, 0
  {
    if |ops| > 0 {
      NoErrorsIffAcceptable(ops[0], parent);
      NoListErrorsIffAcceptable(ops[1..], parent);
      if forall k :: 0 <= k < |ops[1..]| ==> Acceptable(ops[1..][k], parent) {
        assert forall k :: 1 <= k < |ops| ==> Acceptable(ops[k], parent) by {
          forall k | 1 <= k < |ops|
            ensures Acceptable(ops[k], parent)
          {
            assert ops[k] == ops[1..][k - 1];
          }
        }
      }
    }
  }

  /** `validate` reports nothing exactly when every operation is acceptable at the top level. */
  lemma ValidIffAcceptable(ast: seq<Operation>)
    ensures Errors(ast) == [] <==> forall k :: 0 <= k < |ast| ==> Acceptable(ast[k], None)
  {
    NoListErrorsIffAcceptable(ast, None);
  }

  /** A printed positive number is a valid count, and `0` is not. */
  lemma CountOfNumber(n: nat)
    ensures IsValidCount(NatToString(n)) <==> n > 0
  {
    NatToStringValue(n);
    assert NatToString(n) != "all" by {
      assert "all"[0] == 'a';
    }
  }

  /** A report about `op` itself, under the given parent. */
  predicate OwnReport(e: ValidationError, op: Operation, parent: Option<nat>)
  {
    e.line == op.line && e.operation == KindName(op.Kind()) && e.parentTaskLine == parent && e.error != NestedTasks
  }

  lemma RequiredOwn(op: Operation, parent: Option<nat>)
    ensures forall e :: e in RequiredErrors(op, parent) ==> OwnReport(e, op, parent)
  {
    assert MissingFile != NestedTasks;
  }

  lemma ValueOwn(op: Operation, parent: Option<nat>)
    ensures forall e :: e in ValueErrors(op, parent) ==> OwnReport(e, op, parent)
  {
    assert InvalidCount != NestedTasks && InvalidAppend != NestedTasks;
  }

  lemma ContentOwn(op: Operation, parent: Option<nat>)
    ensures forall e :: e in ContentErrors(op, parent) ==> OwnReport(e, op, parent)
  {
    assert EmptyRunContent != NestedTasks && EmptyPattern != NestedTasks && EmptyTo != NestedTasks;
  }

  /** The reports of an operation's own checks are at its line, under its type, with the given parent. */
  lemma OwnErrors(op: Operation, parent: Option<nat>)
    ensures forall e :: e in RequiredErrors(op, parent) + ValueErrors(op, parent) + ContentErrors(op, parent) ==>
              OwnReport(e, op, parent)
  {
    RequiredOwn(op, parent);
    ValueOwn(op, parent);
    ContentOwn(op, parent);
  }

  /** An operation that is one of `ops`. */
  predicate LineOf(e: ValidationError, ops: seq<Operation>)
  {
    exists k :: 0 <= k < |ops| && e.line == ops[k].line && e.operation == KindName(ops[k].Kind())
  }

  /** The reports for a list without TASKS point at one of its operations and carry the given parent. */
  lemma {:induction false} FlatErrors(ops: seq<Operation>, parent: Option<nat>)
    requires NoTasks(ops)
    ensures forall e :: e in ListErrors(ops, parent) ==>
              LineOf(e, ops) && e.parentTaskLine == parent && e.error != NestedTasks
    decreases |ops|
  {
    if |ops| > 0 {
      OwnErrors(ops[0], parent);
      assert OperationErrors(ops[0], parent)
             == RequiredErrors(ops[0], parent) + ValueErrors(ops[0], parent) + ContentErrors(ops[0], parent) + [];
      assert NoTasks(ops[1..]) by {
        forall k | 0 <= k < |ops[1..]|
          ensures !ops[1..][k].Tasks?
        {
          assert ops[1..][k] == ops[k + 1];
        }
      }
      FlatErrors(ops[1..], parent);
      forall e | e in ListErrors(ops[1..], parent)
        ensures LineOf(e, ops)
      {
        var k :| 0 <= k < |ops[1..]| && e.line == ops[1..][k].line && e.operation == KindName(ops[1..][k].Kind());
        assert ops[1..][k] == ops[k + 1];
      }
    }
  }

  /**
   * For an AST without a TASKS inside a TASKS (what the parser produces),
   * every report is about a top-level operation and has no `parentTaskLine`,
   * or is about an operation inside a top-level TASKS and has that TASKS's
   * line as `parentTaskLine`. The nesting report never appears.
   */
  lemma {:induction false} ReportsOfFlatAst(ast: seq<Operation>)
    requires AllFlat(ast)
    ensures forall e :: e in Errors(ast) ==> e.error != NestedTasks
    ensures forall e :: e in Errors(ast) ==>
              (e.parentTaskLine.None? && LineOf(e, ast))
              || (exists k :: 0 <= k < |ast| && ast[k].Tasks? && e.parentTaskLine == Some(ast[k].line)
                              && LineOf(e, ast[k].operations))
    decreases |ast|
  {
    if |ast| > 0 {
      var op := ast[0];
      OwnErrors(op, None);
      assert AllFlat(ast[1..]) by {
        forall k | 0 <= k < |ast[1..]|
          ensures Flat(ast[1..][k])
        {
          assert ast[1..][k] == ast[k + 1];
        }
      }
      ReportsOfFlatAst(ast[1..]);
      assert Flat(op);
      if op.Tasks? {
        FlatErrors(op.operations, Some(op.line));
      }
      forall e | e in Errors(ast)
        ensures e.error != NestedTasks
        ensures (e.parentTaskLine.None? && LineOf(e, ast))
                || (exists k :: 0 <= k < |ast| && ast[k].Tasks? && e.parentTaskLine == Some(ast[k].line)
                                && LineOf(e, ast[k].operations))
      {
        if e in ListErrors(ast[1..], None) {
          if e.parentTaskLine.None? && LineOf(e, ast[1..]) {
            var k :| 0 <= k < |ast[1..]| && e.line == ast[1..][k].line && e.operation == KindName(ast[1..][k].Kind());
            assert ast[1..][k] == ast[k + 1];
          } else {
            var k :| 0 <= k < |ast[1..]| && ast[1..][k].Tasks? && e.parentTaskLine == Some(ast[1..][k].line)
                     && LineOf(e, ast[1..][k].operations);
            assert ast[1..][k] == ast[k + 1];
          }
        } else {
          assert e in OperationErrors(op, None);
          if e in RequiredErrors(op, None) + ValueErrors(op, None) + ContentErrors(op, None) {
            assert LineOf(e, ast) by {
              assert e.line == ast[0].line && e.operation == KindName(ast[0].Kind());
            }
          } else {
            assert op.Tasks? && e in ListErrors(op.operations, Some(op.line));
          }
        }
      }
    }
  }

  /**
   * `e` is reported when `op` is checked under `parent`: by one of the checks
   * of `op` itself, as the nesting of `op`, or, for a TASKS, by one of its
   * operations checked under it, at any depth.
   */
  predicate ReportedAt(e: ValidationError, op: Operation, parent: Option<nat>)
    decreases op, 1
  {
    || OwnReport(e, op, parent)
    || (op.Tasks? && parent.Some? && e == NestingReport(op))
    || (op.Tasks? && ReportedUnder(e, op.operations, Some(op.line)))
  }

  /** `e` is reported by one of `ops` checked under `parent`. */
  predicate ReportedUnder(e: ValidationError, ops: seq<Operation>, parent: Option<nat>)
    decreases ops, 0
  {
    exists k :: 0 <= k < |ops| && ReportedAt(e, ops[k], parent)
  }

  /** Each report of an operation comes from one of the places `ReportedAt` names. */
  lemma {:induction false} OperationReportsPlaced(op: Operation, parent: Option<nat>)
    ensures forall e :: e in OperationErrors(op, parent) ==> ReportedAt(e, op, parent)
    decreases op, 1
  {
    OwnErrors(op, parent);
    if op.Tasks? {
      ListReportsPlaced(op.operations, Some(op.line));
    } else {
      assert OperationErrors(op, parent)
             == RequiredErrors(op, parent) + ValueErrors(op, parent) + ContentErrors(op, parent) + [];
    }
  }

  /**
   * At every depth, a report is about one of the operations checked, with the
   * line of its innermost enclosing TASKS as `parentTaskLine`, or is the
   * nesting report of a TASKS that has an enclosing TASKS.
   */
  lemma {:induction false} ListReportsPlaced(ops: seq<Operation>, parent: Option<nat>)
    ensures forall e :: e in ListErrors(ops, parent) ==> ReportedUnder(e, ops, parent)
    decreases ops, 0
  {
    if |ops| > 0 {
      OperationReportsPlaced(ops[0], parent);
      ListReportsPlaced(ops[1..], parent);
      forall e | e in ListErrors(ops, parent)
        ensures ReportedUnder(e, ops, parent)
      {
        if e in OperationErrors(ops[0], parent) {
          assert ReportedAt(e, ops[0], parent);
        } else {
          assert ReportedUnder(e, ops[1..], parent);
          var k :| 0 <= k < |ops[1..]| && ReportedAt(e, ops[1..][k], parent);
          assert ops[1..][k] == ops[k + 1];
        }
      }
    }
  }

  /** `t` is `op`, a TASKS checked under an enclosing TASKS, or lies at any depth inside `op`. */
  predicate NestsIn(t: Operation, op: Operation, parent: Option<nat>)
    decreases op, 1
  {
    || (op == t && t.Tasks? && parent.Some?)
    || (op.Tasks? && NestsUnder(t, op.operations, Some(op.line)))
  }

  /** `t` is a nested TASKS within one of `ops` checked under `parent`. */
  predicate NestsUnder(t: Operation, ops: seq<Operation>, parent: Option<nat>)
    decreases ops, 0
  {
    exists k :: 0 <= k < |ops| && NestsIn(t, ops[k], parent)
  }

  lemma {:induction false} NestedInOperation(t: Operation, op: Operation, parent: Option<nat>)
    requires NestsIn(t, op, parent)
    ensures NestingReport(t) in OperationErrors(op, parent)
    decreases op, 1
  {
    if op == t && t.Tasks? && parent.Some? {
      assert NestingReport(t) in NestingErrors(op, parent);
    } else {
      NestedInList(t, op.operations, Some(op.line));
    }
  }

  /** Every TASKS with an enclosing TASKS, at any depth, has its nesting reported. */
  lemma {:induction false} NestedInList(t: Operation, ops: seq<Operation>, parent: Option<nat>)
    requires NestsUnder(t, ops, parent)
    ensures NestingReport(t) in ListErrors(ops, parent)
    decreases ops, 0
  {
    if NestsIn(t, ops[0], parent) {
      NestedInOperation(t, ops[0], parent);
    } else {
      var k :| 0 <= k < |ops| && NestsIn(t, ops[k], parent);
      assert ops[k] == ops[1..][k - 1];
      NestedInList(t, ops[1..], parent);
    }
  }
}
