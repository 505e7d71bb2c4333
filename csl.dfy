/**
 * The library's entry point: parse the text (a syntax error aborts), then
 * validate the operations (semantic problems are collected and returned
 * beside them).
 */
module Csl {
  import opened Wrappers
  import opened Ast
  import opened Machine
  import opened Validator
  import Parser
  import ParseFacts

  datatype ParseResult = ParseResult(ast: seq<Operation>, validationErrors: seq<ValidationError>)

  /** What `parse` returns or throws. */
  function ParseAndValidate(text: string, options: ParseOptions): Result<ParseResult, ParseError>
  {
    var ast := ParseText(text, options);
    if ast.Err? then Err(ast.error) else Ok(ParseResult(ast.value, Errors(ast.value)))
  }

  method Parse(text: string, options: ParseOptions) returns (r: Result<ParseResult, ParseError>)
    ensures r == ParseAndValidate(text, options)
  {
    var ast := Parser.Parse(text, options);
    if ast.Err? {
      return Err(ast.error);
    }
    var validationErrors := Validator.Validate(ast.value);
    return Ok(ParseResult(ast.value, validationErrors));
  }

  /**
   * A syntax error is thrown exactly when the parser throws, and otherwise the
   * validation errors of a parsed text never include the TASKS nesting report:
   * each is about a top-level operation, or about an operation inside a
   * top-level TASKS whose line it carries as `parentTaskLine`.
   */
  lemma ParsedReports(text: string, options: ParseOptions)
    ensures ParseAndValidate(text, options).Err? <==> ParseText(text, options).Err?
    ensures ParseAndValidate(text, options).Ok? ==>
              var res := ParseAndValidate(text, options).value;
              && res.ast == ParseText(text, options).value
              && (forall e :: e in res.validationErrors ==> e.error != NestedTasks)
              && (forall e :: e in res.validationErrors ==>
                    (e.parentTaskLine.None? && LineOf(e, res.ast))
                    || (exists k :: 0 <= k < |res.ast| && res.ast[k].Tasks?
                                    && e.parentTaskLine == Some(res.ast[k].line)
                                    && LineOf(e, res.ast[k].operations)))
  {
    if ParseText(text, options).Ok? {
      ParseFacts.ParseFlat(text, options);
      ReportsOfFlatAst(ParseText(text, options).value);
    }
  }
}
