/**
 * The values the parser produces (`Operation`), the options it takes, and its
 * syntax errors (`Line N: reason`).
 */
module Ast {
  import opened Wrappers
  import Text

  datatype Kind = WRITE | RUN | SEARCH | TASKS

  function KindName(k: Kind): string
  {
    match k
    case WRITE => "WRITE"
    case RUN => "RUN"
    case SEARCH => "SEARCH"
    case TASKS => "TASKS"
  }

  /** The attributes of one opening marker, in declaration order. */
  type Attributes = seq<(string, string)>

  /** The value of attribute `name`, if declared (the first declaration wins). */
  function Lookup(attrs: Attributes, name: string): Option<string>
  {
    if |attrs| == 0 then None
    else if attrs[0].0 == name then Some(attrs[0].1)
    else Lookup(attrs[1..], name)
  }

  /** `Lookup` finds a value exactly when the name is declared, and the value is declared with it. */
  lemma {:induction false} LookupFound(attrs: Attributes, name: string)
    ensures Lookup(attrs, name).Some? <==> exists k :: 0 <= k < |attrs| && attrs[k].0 == name
    ensures Lookup(attrs, name).Some? ==> exists k :: 0 <= k < |attrs| && attrs[k] == (name, Lookup(attrs, name).value)
    decreases |attrs|
  {
    if |attrs| > 0 && attrs[0].0 != name {
      LookupFound(attrs[1..], name);
      var r := Lookup(attrs[1..], name);
      if r.Some? {
        var k :| 0 <= k < |attrs[1..]| && attrs[1..][k] == (name, r.value);
        assert attrs[k + 1] == (name, r.value);
      }
      if exists k :: 0 <= k < |attrs| && attrs[k].0 == name {
        var k :| 0 <= k < |attrs| && attrs[k].0 == name;
        assert attrs[1..][k - 1].0 == name;
      }
    } else if |attrs| > 0 {
      assert attrs[0] == (name, attrs[0].1);
    }
  }

  /** No attribute name is declared twice. */
  predicate UniqueNames(attrs: Attributes)
  {
    forall i, j :: 0 <= i < j < |attrs| ==> attrs[i].0 != attrs[j].0
  }

  /**
   * One parsed operation: `line` is the line of its opening marker. The
   * SEARCH fields are absent when the operation ended right after its
   * pattern section, and `to` is absent when no TO line was collected.
   */
  datatype Operation =
    | Write(line: nat, attributes: Attributes, content: string)
    | Run(line: nat, attributes: Attributes, content: string)
    | Search(line: nat, attributes: Attributes, pattern: Option<string>, to: Option<string>,
             replacement: Option<string>)
    | Tasks(line: nat, attributes: Attributes, operations: seq<Operation>)
  {
    function Kind(): Kind
    {
      match this
      case Write(_, _, _) => WRITE
      case Run(_, _, _) => RUN
      case Search(_, _, _, _, _) => SEARCH
      case Tasks(_, _, _) => TASKS
    }
  }

  /** A TASKS operation holds no TASKS operation. */
  predicate Flat(op: Operation)
  {
    op.Tasks? ==> NoTasks(op.operations)
  }

  predicate NoTasks(ops: seq<Operation>)
  {
    forall k :: 0 <= k < |ops| ==> !ops[k].Tasks?
  }

  predicate AllFlat(ops: seq<Operation>)
  {
    forall k :: 0 <= k < |ops| ==> Flat(ops[k])
  }

  /** `ParseOptions`: a missing or empty delimiter falls back to the default. */
  datatype ParseOptions = ParseOptions(startDelimiter: Option<string>, endDelimiter: Option<string>)

  const NoOptions := ParseOptions(None, None)

  /** The reasons a parse is aborted. */
  datatype Reason =
    | MalformedMarker
    | ContentOnMarkerLine
    | EndWithoutActiveOperation
    | EndWithAttributes
    | TasksNested
    | MarkerNotValid(marker: string, state: string)
    | UnknownOperation(name: string)
    | Unterminated(operation: string)
    | InvalidAttributeSyntax
    | ExpectedEquals
    | MissingAttributeValue
    | UnquotedAttributeValue
    | UnterminatedQuotedValue
    | DuplicateAttribute(name: string)

  /** The reasons that come from reading an opening marker's attribute text. */
  predicate IsAttributeReason(r: Reason)
  {
    r.InvalidAttributeSyntax? || r.ExpectedEquals? || r.MissingAttributeValue? || r.UnquotedAttributeValue?
    || r.UnterminatedQuotedValue? || r.DuplicateAttribute?
  }

  datatype ParseError = ParseError(line: nat, reason: Reason)

  function ReasonText(r: Reason): string
  {
    match r
    case MalformedMarker => "Malformed marker"
    case ContentOnMarkerLine => "Content not allowed on marker line"
    case EndWithoutActiveOperation => "END marker without active operation"
    case EndWithAttributes => "END marker cannot have attributes"
    case TasksNested => "TASKS cannot be nested"
    case MarkerNotValid(marker, state) => marker + " marker not valid in " + state + " operation"
    case UnknownOperation(name) => "Unknown operation: " + name
    case Unterminated(op) => "Unterminated " + op + " operation"
    case InvalidAttributeSyntax => "Invalid attribute syntax"
    case ExpectedEquals => "Expected '=' after attribute name"
    case MissingAttributeValue => "Missing attribute value"
    case UnquotedAttributeValue => "Unquoted attribute value"
    case UnterminatedQuotedValue => "Unterminated quoted value"
    case DuplicateAttribute(name) => "Duplicate attribute: " + name
  }

  /** The text of the thrown `Error`. */
  function Message(e: ParseError): (m: string)
    ensures Text.StartsWith(m, "Line " + Text.NatToString(e.line) + ": ")
  {
    "Line " + Text.NatToString(e.line) + ": " + ReasonText(e.reason)
  }
}
