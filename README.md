# csl-parser in Dafny

A model of the core of csl-parser, a parser for CSL:
plain text in which operations are written between marker lines such as
`<---WRITE file="a.txt"--->` … `<---END--->`. The library does three things:

* `parse` (parser.ts) splits the text into lines and runs a state machine over
  them. Its states are no operation, TASKS, WRITE, RUN and SEARCH PATTERN /
  TO / REPLACEMENT. The machine collects WRITE, RUN, SEARCH and TASKS
  operations with their attributes and content. It throws
  `Line N: reason` at the first syntax error.
* `validate` (validator.ts) walks the operations and collects semantic
  problems into one shared `errors` array: a missing `file`, a bad `count`
  or `append`, empty RUN content, an empty pattern or TO section, and a
  TASKS inside a TASKS.
* the facade `parse` (index.ts) runs the first and then the second, and
  returns `{ ast, validationErrors }`.

The repository holds two copies of the parser. main/core/src/parser.ts is
csl-parser/main/core/src/parser.ts without its `console.log` calls. The
model covers both, and the table below cites csl-parser/main/core/src/parser.ts;
the same code sits a few lines earlier in the other copy.

## Layout

| file | module | what it holds |
|---|---|---|
| wrappers.dfy | `Wrappers` | `Option`, `Result` (a thrown `Error` is an `Err`) |
| text.dfy | `Text` | JavaScript character classes; `split(/\r\n\|\r\|\n/)` and `join('\n')`; decimal numerals |
| ast.dfy | `Ast` | `Operation`, attributes, `ParseOptions`, the parse-error reasons and their messages |
| markers.dfy | `Markers` | the two marker regular expressions, as functions that return the match a backtracking engine finds |
| attributes.dfy | `Attributes` | `parseAttributes`: a specification function and the character loop proved equal to it; rendering attributes back to text |
| machine.dfy | `Machine` | the parser's variables and one turn of its loop (`Step`), the loop (`Feed`), the final check for an open operation (`Finish`), and `ParseText` |
| parse_facts.dfy | `ParseFacts` | the invariant the loop keeps and what follows from it |
| parser.dfy | `Parser` | `parse` as a method with the source's own local variables, proved equal to `ParseText` |
| validator.dfy | `Validator` | `validate` as methods of a class holding the shared `errors` array, proved equal to specification functions, and the lemmas about them |
| csl.dfy | `Csl` | the facade |
| rendering.dfy | `Rendering` | writing operations back as CSL text, and the proof that `parse` reads that text back to the same operations |

The imperative parts are methods with loops and invariants:

* `Parser.Parse` loops over the lines.
* `Attributes.ParseAttributes` loops over the characters.
* `Validator.ErrorLog` has one method per validation function, and they push
  onto its `errors` field.

Each method is proved equal to a specification function. The properties are
then proved as lemmas about those functions.

The library has no writer, so `Rendering` supplies one as the parser's
inverse. It writes each operation as its opening marker with its attributes
in `name="value"` form, its content lines and END. A SEARCH gets its pattern,
an optional TO section, REPLACE and the replacement. A TASKS gets its inner
operations. `Rendering.ParseRendered` proves that `parse` reads such a
document back to exactly the operations written. The operations must carry
the lines their markers are written on. Their attribute names must be unique
and well formed, and no value may hold a line terminator. No content line may
start with the start delimiter. The delimiters must hold no line break, and
the end delimiter must begin with a character that is neither a word
character nor whitespace. The proof reads the written lines with an
arbitrary reader that is only assumed to treat marker lines as markers and
content lines as content (`Rendering.Reads`, `Rendering.Quiet`), and then
shows that the parser's own line step is such a reader.

## Model

| member | source | states |
|---|---|---|
| Parser.Parse | csl-parser/main/core/src/parser.ts:12-277 | the line loop with the parser's variables returns what `ParseText` (split, `Feed`, `Finish`) does, error or operations |
| Parser.ContentLine | csl-parser/main/core/src/parser.ts:243-259 | a non-marker line is appended to the buffer of the current section; with no operation open it is dropped, unless it starts with the start delimiter (Malformed marker) |
| Parser.HandleMarkerLine | csl-parser/main/core/src/parser.ts:125-242 | a marker line dispatches on its name: END, an opening marker, TO only in SEARCH PATTERN, REPLACE only in SEARCH PATTERN or TO, otherwise Unknown operation |
| Parser.EndMarker | csl-parser/main/core/src/parser.ts:132-194 | END with no operation or with attributes fails; otherwise the finished operation closes the TASKS, joins its TASKS, or goes to the result, and the buffers are cleared |
| Parser.StartMarker | csl-parser/main/core/src/parser.ts:196-223 | an opening marker fails for a nested TASKS or a wrong state; otherwise it opens a new operation with the marker's attributes at this line and enters its state |
| Machine.StarterKind | csl-parser/main/core/src/parser.ts:196 | a name is an opening marker only for WRITE, RUN, SEARCH and TASKS, and the kind it opens has that name |
| Machine.StepMarker | csl-parser/main/core/src/parser.ts:67-89 | a line that matches the full marker pattern, with a name the state accepts, is handled as a marker |
| Machine.StepContent | csl-parser/main/core/src/parser.ts:97-123 | a line not taken as a marker, and not rejected as a malformed or trailing marker, is handled as content |
| Machine.FeedFrom | csl-parser/main/core/src/parser.ts:59-262 | the loop from line `i` on is one turn at line `i` followed by the loop from line `i + 1` |
| ParseFacts.InitialInv | csl-parser/main/core/src/parser.ts:45-57 | the initial variables satisfy the loop invariant |
| ParseFacts.ContentInv | csl-parser/main/core/src/parser.ts:243-259 | a content line keeps the invariant and leaves the open operations as they were |
| ParseFacts.StartInv | csl-parser/main/core/src/parser.ts:196-223 | an opening marker keeps the invariant, and the operation it opens carries the current line |
| ParseFacts.EndInv | csl-parser/main/core/src/parser.ts:132-194 | END keeps the invariant: no TASKS is ever put inside a TASKS, and `currentOp` is `tasksOp` again after a nested END |
| ParseFacts.HandleMarkerInv | csl-parser/main/core/src/parser.ts:125-242 | every marker keeps the invariant |
| ParseFacts.StepInv | csl-parser/main/core/src/parser.ts:59-262 | every line keeps the invariant, and each open operation was opened on a line already read |
| ParseFacts.StepErrorLine | csl-parser/main/core/src/parser.ts:111-257 | every error thrown while reading a line names that line |
| ParseFacts.FeedInv | csl-parser/main/core/src/parser.ts:59-262 | the whole loop keeps the invariant |
| ParseFacts.FeedErrorLine | csl-parser/main/core/src/parser.ts:59-262 | an error thrown in the loop names one of the lines read |
| ParseFacts.FinishOpen | csl-parser/main/core/src/parser.ts:264-276 | after the last line the parse fails exactly when an operation is open, at the line of that operation's marker; otherwise it returns `operations` |
| ParseFacts.ParseFlat | csl-parser/main/core/src/parser.ts:198-200 | a successful parse returns no TASKS inside a TASKS |
| ParseFacts.ParseErrorLine | csl-parser/main/core/src/parser.ts:264-273 | every syntax error names a line between 1 and the number of lines of the text |
| ParseFacts.HandleMarkerNoMisplacedStarter | csl-parser/main/core/src/parser.ts:203-205 | a marker the state accepts never raises `X marker not valid` for an opening marker X |
| ParseFacts.StepNoMisplacedStarter | csl-parser/main/core/src/parser.ts:203-205 | no line raises that error |
| ParseFacts.FeedNoMisplacedStarter | csl-parser/main/core/src/parser.ts:203-205 | no sequence of lines raises it |
| ParseFacts.ParseNoMisplacedStarter | csl-parser/main/core/src/parser.ts:203-205 | `parse` never throws `WRITE marker not valid in … operation` or its kin for RUN, SEARCH and TASKS |
| Markers.DelimitersOf | csl-parser/main/core/src/parser.ts:13-14 | a missing or empty delimiter option falls back to `<---` / `--->` |
| Markers.TailMatchFirst | csl-parser/main/core/src/parser.ts:22 | the greedy `.*` before the end delimiter stops at the last place where the delimiter can end the match: no longer run fits |
| Markers.TailMatchEnd | csl-parser/main/core/src/parser.ts:22 | the place found is one where the end delimiter ends the match |
| Markers.AfterNameShape | csl-parser/main/core/src/parser.ts:22 | what follows the name is the end delimiter alone, or whitespace, the captured attribute text and the end delimiter |
| Markers.LongestFirst | csl-parser/main/core/src/parser.ts:22 | backtracking over the length of `\w+` returns the longest length with which the rest matches |
| Markers.NameMatchFirst | csl-parser/main/core/src/parser.ts:22 | the name captured is the longest word run after which the rest of the pattern matches |
| Markers.MatchTailShape | csl-parser/main/core/src/parser.ts:22 | a match with a given name length has the pattern's layout, and the anchored one ends at the line's end |
| Markers.MatchNameShape | csl-parser/main/core/src/parser.ts:22 | the captured name is a nonempty run of word characters |
| Markers.MatchMarkerShape | csl-parser/main/core/src/parser.ts:22-98 | every match has the layout `START name [ws attrs] END`; the full-line one ends at the line's end |
| Markers.MatchMarkerLine | csl-parser/main/core/src/parser.ts:67-72 | a marker line written with a word name and attribute text is recognised with that name and those attributes |
| Markers.MatchBareMarker | csl-parser/main/core/src/parser.ts:67-72 | `START name END` yields the name and no attribute text |
| Markers.MatchMarkerWithAttributes | csl-parser/main/core/src/parser.ts:67-72 | `START name attrs END` yields the name and the attribute text |
| Attributes.ParseAttributes | csl-parser/main/core/src/parser.ts:279-368 | the character loop returns what `ScanAttributes` says, with the line number attached to an error |
| Attributes.SkipWhitespace | csl-parser/main/core/src/parser.ts:285-287 | the loop stops at the first non-whitespace character or the end |
| Attributes.ReadName | csl-parser/main/core/src/parser.ts:292-295 | the loop stops at the first whitespace, `=` or the end |
| Attributes.ReadQuoted | csl-parser/main/core/src/parser.ts:331-352 | the loop reads the value up to its closing quote, with a backslash taking the next character literally |
| Attributes.ReadAttribute | csl-parser/main/core/src/parser.ts:290-357 | one `name = "value"` is read with the source's error for each malformed step |
| Attributes.ScanOne | csl-parser/main/core/src/parser.ts:290-357 | a read attribute has a name without whitespace or `=` and moves forward; its errors are attribute errors |
| Attributes.ScanExtends | csl-parser/main/core/src/parser.ts:359-364 | reading goes on from the attributes read so far, adds valid names only and keeps names unique |
| Attributes.ScanErrors | csl-parser/main/core/src/parser.ts:297-361 | every error of the reader is one of the attribute errors |
| Attributes.ScanWellFormed | csl-parser/main/core/src/parser.ts:360-364 | the attributes read have unique, well-formed names |
| Attributes.DeclareUnique | csl-parser/main/core/src/parser.ts:360-364 | declaring attributes in order succeeds exactly when no name repeats, and then keeps them all; otherwise it reports a duplicate |
| Attributes.WriteRoundTrip | csl-parser/main/core/src/parser.ts:279-368 | attributes written in any layout the reader accepts read back as `Declare` gives them: in order exactly when their names are unique, otherwise the first repeated name is reported. The layout allows any whitespace run before each attribute and on either side of `=`, either quote per attribute, values escaped or raw, and trailing whitespace |
| Attributes.ReadEscaped | csl-parser/main/core/src/parser.ts:331-352 | a value written with `\` before each quote of its kind and each backslash, then the closing quote, reads back as the value, and reading stops just after that quote |
| Attributes.ReadRaw | csl-parser/main/core/src/parser.ts:331-352 | a value written as it is reads back unchanged, with every backslash kept. It must hold no unescaped quote of its kind and no backslash directly followed by that quote or by another backslash |
| Attributes.RenderRoundTrip | csl-parser/main/core/src/parser.ts:279-368 | the special case `name="value"`, escaped, separated by single spaces: the attributes come back exactly when their names are unique |
| Attributes.LoneOpeningQuote | csl-parser/main/core/src/parser.ts:355-357 | `file="` is accepted with an empty value, because the closing-quote check looks at the opening quote |
| Attributes.EscapedQuoteAtEnd | csl-parser/main/core/src/parser.ts:335-357 | `a='x\'` is accepted with value `x'`, because an escaped quote passes the closing-quote check |
| Text.SplitLinesNoBreak | csl-parser/main/core/src/parser.ts:44 | no line of the split text holds a CR or an LF |
| Text.JoinSplitLines | csl-parser/main/core/src/parser.ts:44 | joining the lines with LF gives the text with every CRLF, CR and LF made LF |
| Text.SplitJoin | csl-parser/main/core/src/parser.ts:44 | splitting lines joined with LF gives those lines back |
| Text.JoinSnoc | csl-parser/main/core/src/parser.ts:150-153 | one more buffered line adds an LF and that line to the joined content |
| Text.NatToStringValue | csl-parser/main/core/src/parser.ts:111 | the decimal numeral of a line number reads back as that number |
| Ast.Message | csl-parser/main/core/src/parser.ts:111-361 | every message starts with `Line N: ` |
| Ast.LookupFound | csl-parser/main/core/src/validator.ts:61 | an attribute is found exactly when it is declared, with its declared value |
| Validator.ErrorLog.ValidateRequiredAttributes | csl-parser/main/core/src/validator.ts:58-90 | pushes the missing-`file` report of a WRITE or a SEARCH without a `file` attribute, and nothing for RUN and TASKS |
| Validator.ErrorLog.ValidateAttributeValues | csl-parser/main/core/src/validator.ts:95-127 | pushes the `count` report of a SEARCH with an invalid count and the `append` report of a WRITE whose append is neither `true` nor `false` |
| Validator.ErrorLog.ValidateContent | csl-parser/main/core/src/validator.ts:132-180 | pushes the empty-content report of a RUN, and the empty-pattern and empty-TO reports of a SEARCH with those sections present but blank |
| Validator.ErrorLog.ValidateOperation | csl-parser/main/core/src/validator.ts:26-53 | pushes all the reports of an operation and then, for a TASKS, the nesting report and those of each inner operation with the TASKS line as parent |
| Validator.Validate | csl-parser/main/core/src/validator.ts:9-18 | the reports of every top-level operation, in order, and nothing else |
| Validator.ListErrorsAppend | csl-parser/main/core/src/validator.ts:13-15 | the reports of two lists of operations are those of the first followed by those of the second |
| Validator.ListErrorsSnoc | csl-parser/main/core/src/validator.ts:47-51 | one more operation adds its reports after those already collected |
| Validator.NoErrorsIffAcceptable | csl-parser/main/core/src/validator.ts:26-53 | an operation draws no report exactly when it meets every rule, stated directly (file present, count and append valid, content and sections nonblank, no TASKS inside TASKS) |
| Validator.NoListErrorsIffAcceptable | csl-parser/main/core/src/validator.ts:47-51 | a list draws no report exactly when each of its operations meets every rule |
| Validator.ValidIffAcceptable | csl-parser/main/core/src/validator.ts:9-18 | `validate` returns no errors exactly when every operation meets every rule |
| Validator.CountOfNumber | csl-parser/main/core/src/validator.ts:185-193 | the decimal numeral of `n` is a valid count exactly when `n > 0` |
| Validator.RequiredOwn | csl-parser/main/core/src/validator.ts:58-90 | each missing-attribute report is about the operation checked, at its line, under its type and parent |
| Validator.ValueOwn | csl-parser/main/core/src/validator.ts:95-127 | the same for the attribute-value reports |
| Validator.ContentOwn | csl-parser/main/core/src/validator.ts:132-180 | the same for the content reports |
| Validator.OwnErrors | csl-parser/main/core/src/validator.ts:26-35 | the same for all the reports of one operation |
| Validator.FlatErrors | csl-parser/main/core/src/validator.ts:47-51 | the reports of operations without TASKS are at lines of those operations, carry the given parent and are never the nesting report |
| Validator.ReportsOfFlatAst | csl-parser/main/core/src/validator.ts:9-53 | with no TASKS inside a TASKS there is no nesting report, and each report is at a top-level line without a parent, or at an inner line with its TASKS's line as parent |
| Validator.OperationReportsPlaced | csl-parser/main/core/src/validator.ts:26-53 | each report drawn by checking an operation comes from one of three places. It is one of the operation's own reports, at its line and with the given parent. Or it is the nesting report of a TASKS under an enclosing TASKS. Or it comes, at any depth, from an inner operation checked under the TASKS's line |
| Validator.ListReportsPlaced | csl-parser/main/core/src/validator.ts:26-53 | at every depth, a report in a list's reports is placed in one of those ways by one of the list's operations. So its `parentTaskLine` is the line of the operation's innermost enclosing TASKS, or absent for the nesting report |
| Validator.NestedInOperation | csl-parser/main/core/src/validator.ts:37-51 | a TASKS that is the operation checked with an enclosing TASKS, or lies inside it at any depth, has its nesting report among the operation's reports |
| Validator.NestedInList | csl-parser/main/core/src/validator.ts:37-51 | every TASKS inside a TASKS, at any depth below a list, has its nesting report (its line, no `parentTaskLine`) among the list's reports |
| Csl.Parse | csl-parser/main/core/src/index.ts:20-28 | throws exactly the parser's error, otherwise returns the parsed operations with their validation errors |
| Csl.ParsedReports | csl-parser/main/core/src/index.ts:20-28 | a syntax error is thrown exactly when the parser throws; otherwise the operations are the parser's, no nesting report appears, and each report is at a top-level line or at a line inside a top-level TASKS whose line it carries |
| Rendering.ParseRendered | csl-parser/main/core/src/parser.ts:12-277 | the text written for operations that sit at their marker lines parses back to exactly those operations, for any delimiters without line breaks whose end cannot extend a name |
| Rendering.ParseEmpty | csl-parser/main/core/src/parser.ts:44-276 | an empty text is one empty line outside any operation and parses to no operations |
| Rendering.LinesWritten | csl-parser/main/core/src/parser.ts:44 | splitting a written document gives back the lines written for its operations |
| Rendering.RunWritten | csl-parser/main/core/src/parser.ts:59-262 | the line loop over the written lines, from the initial variables at line 1, ends between operations with `operations` holding exactly the operations written |
| Rendering.FeedRun | csl-parser/main/core/src/parser.ts:59-262 | the parser's loop is its one-line step applied to each line in turn, stopping at the first error |
| Rendering.RunAppend | csl-parser/main/core/src/parser.ts:59-262 | reading two stretches of lines is reading the first, then the second from where the first left off, unless the first fails |
| Rendering.ReadWritten | csl-parser/main/core/src/parser.ts:279-368 | written attributes are a marker's attribute text and are read back unchanged |
| Rendering.MarkerLineNoBreak | csl-parser/main/core/src/parser.ts:44 | a marker line written with a word name and attribute text without line terminators holds no line break, so it stays one line |
| Rendering.StepOpen | csl-parser/main/core/src/parser.ts:196-223 | the written opening marker of an operation, read between two operations, opens that operation at this line with its attributes and enters its state |
| Rendering.StepTo | csl-parser/main/core/src/parser.ts:225-231 | the written TO marker, read in a SEARCH pattern, moves to the TO section and changes nothing else |
| Rendering.StepReplace | csl-parser/main/core/src/parser.ts:233-239 | the written REPLACE marker, read in a SEARCH pattern or TO section, moves to the replacement and changes nothing else |
| Rendering.StepEnd | csl-parser/main/core/src/parser.ts:132-194 | the written END marker, read where END is accepted, is handled as an END without attributes |
| Rendering.SpelledReads | csl-parser/main/core/src/parser.ts:67-242 | the parser's one-line step reads every written marker line as the marker it stands for |
| Rendering.PlainQuiet | csl-parser/main/core/src/parser.ts:243-254 | lines that do not start with the start delimiter are appended to the buffer of whatever section is being read |
| Rendering.RenderableLegible | csl-parser/main/core/src/parser.ts:243-254 | every section of a renderable operation is read as content |
| Rendering.RunBody | csl-parser/main/core/src/parser.ts:243-254 | a stretch of content lines appends exactly those lines to the current section's buffer and changes nothing else |
| Rendering.EndLeaf | csl-parser/main/core/src/parser.ts:148-192 | END after the sections of a WRITE, RUN or SEARCH adds the finished operation to the result or to its TASKS and clears the buffers |
| Rendering.EndSearch | csl-parser/main/core/src/parser.ts:151-156 | END after a written SEARCH rebuilds its pattern, TO section and replacement exactly |
| Rendering.EndTasks | csl-parser/main/core/src/parser.ts:157-171 | END after the operations of a top-level TASKS adds the TASKS, with those operations, to the result |
| Rendering.RunText | csl-parser/main/core/src/parser.ts:59-262 | a written WRITE or RUN is read back as that operation, `content` being the lines joined with LF |
| Rendering.RunBareSearch | csl-parser/main/core/src/parser.ts:59-262 | a written SEARCH without sections is read back as a SEARCH with no pattern, TO section or replacement |
| Rendering.RunSearch | csl-parser/main/core/src/parser.ts:59-262 | a written SEARCH with pattern, optional TO section and replacement is read back as that operation |
| Rendering.RunTasks | csl-parser/main/core/src/parser.ts:59-262 | a written top-level TASKS is read back with its inner operations, in order |
| Rendering.RunOp | csl-parser/main/core/src/parser.ts:59-262 | any written operation, at the top level or inside a TASKS, is read back and added to the result or to that TASKS |
| Rendering.RunList | csl-parser/main/core/src/parser.ts:59-262 | a written list of operations is read back as those operations, in order, appended to what was read before |
| Rendering.OpHeight | csl-parser/main/core/src/parser.ts:47-261 | the lines written for an operation are as many as its height, so the next operation's marker is at its line |
| Rendering.ListUnbroken | csl-parser/main/core/src/parser.ts:44 | no written line holds a line break |

## Notes on the source

* An operation left open inside a TASKS is reported at the line of that
  operation's own marker. The error is "Unterminated WRITE operation" (or
  RUN, SEARCH) and not "Unterminated TASKS operation". The check at
  parser.ts:270-272 is reached only when the state is TASKS
  (`ParseFacts.FinishOpen`).
* Inside WRITE, RUN and the SEARCH sections, a line that matches the full
  marker pattern with a name the state does not accept is content
  (parser.ts:74-89). Two consequences:
  * The `X marker not valid in … operation` error for an opening marker
    (parser.ts:203-205) is never thrown: `ParseFacts.ParseNoMisplacedStarter`.
  * A second `<---WRITE …--->` before END makes the text an unterminated
    WRITE reported at line 1, not an error at the second marker. Some of the
    expectations in csl-parser/main/core/test-unit/test/parser.test.ts
    (lines 714-728 and 883-886) expect such errors; the model follows the
    code.
* `<---WRITE file="test.txt" --->`, with a space before the end delimiter,
  is a marker whose attribute text ends in a space, which the attribute
  reader skips. The same test file (lines 800-804) expects Malformed
  marker.
* `file="` and `a='x\'` are accepted: the check for a closing quote reads
  the character before the position reached, and that character is the
  opening quote or an escaped one (`Attributes.LoneOpeningQuote`,
  `Attributes.EscapedQuoteAtEnd`).
* The branch at parser.ts:255-257 (Malformed marker for a content line
  outside any operation) is modelled, but a line that reaches it has
  already been rejected at parser.ts:97-119.

## Left out

- `console.log` of every line (csl-parser/main/core/src/parser.ts:60 and others): output only, no effect on the result.
- Attributes are an ordered list of name/value pairs, not the fields of the operation object. `Object.assign` (csl-parser/main/core/src/parser.ts:212, main/core/src/parser.ts:189) would let an attribute named `type`, `line`, `content`, `pattern`, `to`, `replacement` or `operations` overwrite or be overwritten by those fields. The model keeps them apart, and the validator reads `file`, `count` and `append` from the attribute list. The list also keeps declaration order. JavaScript enumerates integer-like keys first, in ascending order, so `<---WRITE b="1" 2="x" 1="y"--->` enumerates as `1`, `2`, `b`. Nothing in the core reads that order.
- An attribute named `__proto__` is not stored by the JavaScript object and is never a duplicate; the model stores it like any other name.
- Attributes.ScanAttributes: an attribute named `hasOwnProperty` is stored on the JavaScript object (parser.ts:364) and shadows the method that the duplicate check of every later attribute calls (parser.ts:360), so `<---WRITE hasOwnProperty="x" file="a"--->` makes the source throw a `TypeError` without the `Line N:` prefix. The model reads such a line with both attributes.
- Validator.CountOfNumber: `isValidCount` is modelled as `all` or a nonempty string of ASCII digits with a nonzero value, so it is weaker than `Number(count)` followed by `Number.isInteger`. The cases not modelled are surrounding whitespace, a sign, `2.0`, exponents, hexadecimal, octal and binary literals, and digit strings so long (about 309 digits or more) that `Number` returns `Infinity`, which `isValidCount` rejects and the model accepts.
- `validate` accepts any array; the model takes operations of the shape the parser produces, and an attribute missing from a marker is the `undefined` of the source.
- The regular expressions are not run by a regex engine: `Markers` spells out the matches the two patterns admit and the order in which backtracking tries them. The delimiters are matched literally, which is what `escapeRegex` achieves.
- Text is a sequence of characters. JavaScript counts UTF-16 code units, and no comparison in the parser depends on that difference.
- The operation objects are values: `currentOp` and `tasksOp` are the same object only while the state is TASKS, and the model proves that they are then equal (`ParseFacts.Inv`).
