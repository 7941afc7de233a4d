# rigorq core in Dafny

rigorq is a Python style checker. It runs Ruff for the mechanical PEP 8
rules and adds its own docstring rules (RQ200 line length, RQ202/RQ203
summary line, RQ206 NumPy parameter/return layout), then reports every
violation in the compiler layout `path:line:col: CODE message`.

This project models the core of that checker and proves properties of the
model:

- `PyStr` (`pystr.dfy`): the parts of Python's `str` the checker relies on
  (`isspace`, `strip`, `rstrip`, `startswith`, `endswith`, `find`, `in`,
  `split` on one character, `join`, `splitlines()`, decimal `int()`/`str()`),
  defined once and shared by every other module.
- `Style` (`style.dfy`): the `Violation` record, the Ruff command line
  (`_build_ruff_cmd`) and the reading of Ruff's output
  (`_parse_ruff_output`). The output reader is a loop proved against a
  function over the output's lines; its partner lemmas say when it raises,
  which lines it keeps, and that a line printed as `path:line:col:code:msg`
  reads back to those fields.
- `Docstrings` (`docstrings.dfy`): syntax-tree nodes and tokens as input
  values, the docstring candidate test, the raw-line extraction (a loop
  proved against a function), the delimiter-free content, the owner kind
  and name, and the record handed to the rules.
- `Validators` (`validators.dfy`): the three rules. RQ200 is a per-line
  check. RQ202/RQ203 collect the summary lines in a loop proved against a
  function, and both directions of each violation's condition are stated.
  RQ206 is a state machine over the raw lines, with lemmas for the layouts
  it accepts and the first line it rejects.
- `Driver` (`driver.dfy`): `validate_docstrings` once the file is read,
  parsed and tokenized. The module window, the `ast.walk` traversal with
  each class or function window, the set of token spans already handled,
  the optional skipping of private names, and the run of every rule over
  each docstring are stated as functions, and the nested loops are methods
  proved to compute them. The per-docstring decision is passed as a
  function value, so the bookkeeping lemmas hold for any decision.
  Concretely, every handled docstring is a candidate inside its owner's
  window, no span is handled twice, every candidate span ends up handled,
  and the result is the concatenation of the handled docstrings' reports
  under the corrected RQ206 rule (see Findings and Left out).
- `Reporting` (`reporter.dfy`): the `Reporter` class with its violation
  and error lists as fields updated in place. It also covers the exit code,
  the per-violation line format (the coloured line with its escapes removed
  is the plain line), the summary statistics (a loop proved against a
  function; per-tool counts sum to the total), the print order (sorted by
  path, line and column, and a permutation), the decision to print the
  summary, and the message of the fix summary.

Paths are plain strings, and pathlib's `/` is modelled as `JoinPath`. The
source file's text, the tree from `ast.parse` and the tokens from
`tokenize` are parameters of the driver.

Where the specification and the code differ, the model follows the code:

- `_get_node_info` calls every function `"function"`, so the method and
  async branches of the RQ206 rule never apply (`NodeInfoNeverMethod`).
- The `next_stmt` argument of the candidate test is computed but ignored.
- The line-length rule exempts a line only when the raw line, indentation
  included, is a bare delimiter. An indented closing delimiter is measured
  like any other line (`IndentedDelimiterMeasured`).
- `exit_code` returns 0 when there are violations but no errors (see
  Findings).
- Ruff's concise layout `path:line:col: CODE msg` has no colon between
  the code and the message, so `_parse_ruff_output` puts `CODE msg` into
  the `code` field and leaves `message` empty
  (`ConciseLayoutPutsMessageInCode`).
- `indent_level` is the length of the whole first raw line, not its
  indentation (`IndentIsFirstLineLength`).
- The check `if not name or not type_` in the RQ206 rule can never fire:
  a stripped line that contains `" : "` has text on both sides of it
  (`NameAndTypeNeverEmpty`).

## Model

| member | source | states |
|---|---|---|
| Style.JoinPath | src/rigorq/checks/style.py:116 | `base / path` without normalisation: an absolute path replaces the base; otherwise the result starts with the base and ends with the relative path |
| Style.BuildRuffCmd | src/rigorq/checks/style.py:53-88 | the command starts with `ruff check`. `--fix` appears among the options exactly when fix is set, and only at position 2. Then come the five fixed options, including `--line-length=<n>`, then the files in order. Its length is 7, plus one with `--fix`, plus the number of files |
| Style.ReadFields | src/rigorq/checks/style.py:108-122 | a line with at least four colon fields raises exactly when its line or column field is not an integer for `int()`. Otherwise line and column are those integers, code and message are stripped, the message is empty with exactly four fields, the path is joined to the base, and the tool is `ruff` |
| Style.ParseRuffLine | src/rigorq/checks/style.py:107-108 | a line is skipped exactly when it has fewer than four colon-separated fields |
| Style.ParseRuffOutput | src/rigorq/checks/style.py:91-124 | the loop computes the parse of the stripped output's lines; blank output gives no violations; at most one violation per line |
| Style.CollectOkIff | src/rigorq/checks/style.py:106-122 | reading the outcomes succeeds exactly when no line raises |
| Style.CollectFirstRaised | src/rigorq/checks/style.py:106-122 | when lines raise, the error raised is the first such line's |
| Style.ParseLinesOkIff | src/rigorq/checks/style.py:104-122 | parsing the output succeeds exactly when no line's integer conversion fails |
| Style.AcceptedLines | src/rigorq/checks/style.py:108 | the lines kept are exactly those with at least four colon fields, in order |
| Style.ParsedFromAcceptedLines | src/rigorq/checks/style.py:106-122 | on success the violations are, one for one and in order, the reads of the kept lines |
| Style.NonNumericLineRaises | src/rigorq/checks/style.py:110 | a kept line whose line field is not an integer, with no earlier failing line, raises ValueError naming that field |
| Style.ReadColonFields | src/rigorq/checks/style.py:107-113 | a line printed as `path:line:col:code:msg` (no colon in path or code) reads back as those fields, stripped |
| Style.ConciseLayoutPutsMessageInCode | src/rigorq/checks/style.py:93-113 | a line in the concise layout `path:line:col: CODE msg` reads with code `CODE msg` and an empty message |
| PyStr.JoinSplit | src/rigorq/checks/style.py:107 | joining the pieces of `split` with the separator gives the text back |
| PyStr.IntRoundTrip | src/rigorq/checks/style.py:110 | `int()` reads back every printed integer |
| PyStr.StripIdempotent | src/rigorq/checks/style.py:112 | `strip` applied twice is `strip` applied once |
| PyStr.StripEmptyIffBlank | src/rigorq/checks/docstrings.py:222-225 | a line strips to empty exactly when it is all whitespace |
| PyStr.SplitLines | src/rigorq/checks/docstrings.py:610 | no piece holds a line break, the result is empty exactly when the text is, and text without a break is one piece |
| PyStr.FindFirst | src/rigorq/checks/docstrings.py:498 | `find` returns the first occurrence, and -1 only when there is none |
| Docstrings.IsDocstringCandidate | src/rigorq/checks/docstrings.py:429-476 | true exactly when the node is a module, class or function, its first statement is a string expression, and the token starts within lines 1-3 for a module or within two lines of the node's first line otherwise |
| Docstrings.NearbyStringPasses | src/rigorq/checks/docstrings.py:476 | for a class or function with a docstring, any string token two lines below its first line also passes the test |
| Docstrings.DocstringLines | src/rigorq/checks/docstrings.py:479-510 | a multi-line token yields each covered source line, numbered from the token's first line. A single-line token yields its whole line when its text is not found there, and otherwise one entry per `splitlines` piece of the token's text, numbered from the token's first line: the text of the line before the token followed by that piece |
| Docstrings.ExtractDocstringLines | src/rigorq/checks/docstrings.py:479-510 | the loops compute `DocstringLines` |
| Docstrings.SingleLineIsLinePrefix | src/rigorq/checks/docstrings.py:495-501 | a one-line token found in its line yields one entry: the line up to the end of the token |
| Docstrings.GetDocstringContent | src/rigorq/checks/docstrings.py:513-523 | the content is the token text after an opening triple quote and before a closing one, and keeps everything else |
| Docstrings.ContentOfDelimited | src/rigorq/checks/docstrings.py:513-523 | the content of `q + c + q`, with `q` a triple quote, is `c` |
| Docstrings.ContentOfUndelimited | src/rigorq/checks/docstrings.py:513-523 | text without triple quotes is its own content |
| Docstrings.GetNodeInfo | src/rigorq/checks/docstrings.py:526-540 | module, class and function owners correspond exactly to the node kinds. Async functions are reported as functions, anything else is unknown, and the name follows the same cases |
| Docstrings.NodeInfoNeverMethod | src/rigorq/checks/docstrings.py:526-540 | no node is ever classified as a method, async function or async method |
| Docstrings.DocstringInfoOf | src/rigorq/checks/docstrings.py:543-569 | the record holds the node and token, the raw lines of `DocstringLines`, the content of `GetDocstringContent`, the owner kind and name of `GetNodeInfo`, the token's first and last lines, and the first raw line's length as indent (0 without raw lines). A token with text that starts within the source always has raw lines |
| Docstrings.IndentIsFirstLineLength | src/rigorq/checks/docstrings.py:553-557 | for a multi-line docstring the indent level is the length of the whole first raw line |
| Validators.CheckLineLength | src/rigorq/checks/docstrings.py:160-187 | RQ200 is reported exactly when the line is not a bare delimiter and is longer than the limit. It points at that line and column 0, and its message names both lengths |
| Validators.IndentedDelimiterMeasured | src/rigorq/checks/docstrings.py:169-176 | an indented closing delimiter is not exempt and is measured with its indentation |
| Validators.SummaryLinesStripped | src/rigorq/checks/docstrings.py:220-242 | every collected summary line is non-empty and stripped |
| Validators.SummaryStopsAtBlank | src/rigorq/checks/docstrings.py:223-225 | nothing after the first blank line is collected |
| Validators.OneLineDocstringSummary | src/rigorq/checks/docstrings.py:227-233 | an indented one-line docstring's summary is its inner text alone, whatever follows |
| Validators.CollectSummaryLines | src/rigorq/checks/docstrings.py:220-242 | the loop computes the summary lines |
| Validators.SummaryViolations | src/rigorq/checks/docstrings.py:244-264 | RQ202 exactly when there are no summary lines. RQ203 exactly when there are some, the period is required, and the last one does not end with a period. At most one violation, at the docstring's first line |
| Validators.CheckSummary | src/rigorq/checks/docstrings.py:211-266 | the same two conditions over the docstring's raw lines |
| Validators.ValidateSummary | src/rigorq/checks/docstrings.py:211-266 | the method computes `CheckSummary` |
| Validators.FindStrippedFirst | src/rigorq/checks/docstrings.py:348-349 | the search stops at the first line that strips to the target, and no line before it does |
| Validators.SkipIndented | src/rigorq/checks/docstrings.py:387-388 | every skipped line starts with four spaces, and the line it stops at does not |
| Validators.Scan | src/rigorq/checks/docstrings.py:347-424 | the stage machine as written. A missing `Parameters` heading fails at offset 0. An unpacking error happens only at a parameter line. Class docstrings never get a Returns problem, and the Returns stage reports only Returns problems |
| Validators.ScanAsWritten | src/rigorq/checks/docstrings.py:347-424 | as written: an unpacking error lies at least two lines below the heading; reported offsets stay within the docstring plus one |
| Validators.MissingHeadingAtFirstLine | src/rigorq/checks/docstrings.py:348-356 | the rule fails at the docstring's first line exactly when no line strips to `Parameters` |
| Validators.UnpackErrorCause | src/rigorq/checks/docstrings.py:367-372 | an unpacking error happens exactly on a line that holds `" : "` only across its leading or trailing whitespace, two lines below the heading |
| Validators.ParameterLineRaises | src/rigorq/checks/docstrings.py:367-372 | such a parameter line always raises |
| Validators.NameAndTypeNeverEmpty | src/rigorq/checks/docstrings.py:372-376 | when the stripped line holds `" : "`, both the name and the type are non-empty |
| Validators.EmptyTypeRaises | src/rigorq/checks/docstrings.py:367-372 | the parameter line `x : ` raises ValueError as written; the corrected rule reports RQ206 there |
| Validators.ScanParameterSection | src/rigorq/checks/docstrings.py:347-424 | corrected: never raises. It agrees with the code as written wherever that does not raise, and reports a parameter-format problem at the line that would have raised |
| Validators.SectionMissingHeading | src/rigorq/checks/docstrings.py:348-356 | the corrected rule also fails at the first line exactly when no line strips to `Parameters` |
| Validators.ConformingFunctionLayout | src/rigorq/checks/docstrings.py:347-424 | a function docstring has no RQ206 problem when it has the heading, underline, a `name : type` line, indented description, blank line, Returns heading, underline, type and indented description |
| Validators.ConformingClassLayout | src/rigorq/checks/docstrings.py:347-390 | a class docstring with the heading, underline, a `name : type` line and an indented description conforms, with no Returns section |
| Validators.ReturnsConforms | src/rigorq/checks/docstrings.py:390-424 | the Returns stage accepts a blank line, `Returns`, its underline, a type and an indented description |
| Validators.ScanParameterLines | src/rigorq/checks/docstrings.py:347-424 | the loops compute the corrected scan |
| Validators.FindInit | src/rigorq/checks/docstrings.py:303-314 | finds a plain `__init__` function of the class body, and finds none exactly when the body has none |
| Validators.ParameterRuleApplies | src/rigorq/checks/docstrings.py:288-330 | modules never need the section. A class needs it exactly when its `__init__` has a parameter beyond `self`. A function needs it exactly when it has a parameter, or two when the first is `self` or `cls` |
| Validators.CheckParameters | src/rigorq/checks/docstrings.py:281-424 | no violation when the rule does not apply. Otherwise it reports no violation exactly when the corrected scan conforms. At most one RQ206 violation, within the docstring's lines plus one |
| Validators.ParametersAgainstAsWritten | src/rigorq/checks/docstrings.py:347-376 | where the rule as written does not raise, the corrected rule reports exactly what it reports. Where it raises ValueError, the corrected rule reports the one RQ206 parameter-format violation at the line that raised |
| Validators.MissingParametersAtFirstLine | src/rigorq/checks/docstrings.py:352-356 | with no `Parameters` line, the one violation is the missing-section message at the docstring's first line |
| Validators.ValidateParameters | src/rigorq/checks/docstrings.py:281-424 | the method computes `CheckParameters` |
| Validators.ValidateLine | src/rigorq/checks/docstrings.py:107-187 | only the line-length rule checks lines; its violations carry the rule's code, the line number, the path and tool `rigorq` |
| Validators.ValidateDocstring | src/rigorq/checks/docstrings.py:128-143 | the line-length rule has no whole-docstring check. The others report at most one violation, with the path, tool `rigorq`, and the rule's code or RQ203 |
| Validators.RunValidateDocstring | src/rigorq/checks/docstrings.py:128-143 | the method computes `ValidateDocstring` |
| Driver.Walk | src/rigorq/checks/docstrings.py:684 | the walk starts at the tree's root |
| Driver.WalkSize | src/rigorq/checks/docstrings.py:684 | the walk has as many entries as the tree has nodes, and with every node it holds that node's children |
| Driver.WalkQueueKeeps | src/rigorq/checks/docstrings.py:684 | every queued tree is visited |
| Driver.WalkQueueClosed | src/rigorq/checks/docstrings.py:684 | whatever the walk visits, it also visits the children of |
| Driver.StringTokens | src/rigorq/checks/docstrings.py:626-629 | the STRING tokens, and every STRING token is among them |
| Driver.ModuleWindow | src/rigorq/checks/docstrings.py:672-675 | the string tokens starting on lines 1-3, and all of them |
| Driver.NodeWindow | src/rigorq/checks/docstrings.py:690-694 | the string tokens starting between the node's first line and two lines past its last, and all of them |
| Driver.PrivateNames | src/rigorq/checks/docstrings.py:649 | examples: `_helper`, `_` and `__mangled` are private; `__init__`, `__` and `public` are not |
| Driver.PrivateStartsWithUnderscore | src/rigorq/checks/docstrings.py:649 | every private name starts with `_` |
| Driver.DunderNotPrivate | src/rigorq/checks/docstrings.py:649 | `__` + any text + `__` is never private |
| Driver.SingleUnderscorePrivate | src/rigorq/checks/docstrings.py:649 | `_` in front of any name that does not start with `_` gives a private name |
| Driver.LineViolationsAttributed | src/rigorq/checks/docstrings.py:658-663 | every line violation carries the rule's code, the path and tool `rigorq` |
| Driver.DocstringViolationsAttributed | src/rigorq/checks/docstrings.py:655-669 | every violation of a docstring carries the path, tool `rigorq` and one of RQ200, RQ202, RQ203, RQ206 |
| Driver.RulesOrDefault | src/rigorq/checks/docstrings.py:597-603 | without rules, the default is line length 72, the summary rule with periods, and the parameter rule |
| Driver.Drive | src/rigorq/checks/docstrings.py:631-632 | with no STRING token nothing is handled |
| Driver.ValidateDocstrings | src/rigorq/checks/docstrings.py:572-703 | no STRING token means no violation |
| Driver.ProcessConsistent | src/rigorq/checks/docstrings.py:638-653 | processing adds the token's span to the handled set. It runs the rules exactly when the span is new and the docstring is not skipped, and never handles a span twice |
| Driver.WindowConsistent | src/rigorq/checks/docstrings.py:696-701 | each docstring handled in a window belongs to that node, comes from the window, and passed the candidate test |
| Driver.WindowCovers | src/rigorq/checks/docstrings.py:696-701 | every candidate in the window ends up in the handled set |
| Driver.NodesConsistent | src/rigorq/checks/docstrings.py:684-701 | each docstring handled in the walk belongs to a class or function whose window held it, and passed the candidate test |
| Driver.NodesCover | src/rigorq/checks/docstrings.py:684-701 | every candidate of every class or function window ends up in the handled set |
| Driver.DriveConsistent | src/rigorq/checks/docstrings.py:634-701 | the spans handled are distinct and recorded, and the violations are the reports of the handled docstrings in order |
| Driver.DriveHandlesCandidates | src/rigorq/checks/docstrings.py:671-701 | every handled docstring is a STRING token that passed the candidate test. Either it is the module's within lines 1-3, or it belongs to a walked class or function within that node's window |
| Driver.DriveCovers | src/rigorq/checks/docstrings.py:671-701 | every module candidate and every class or function candidate in its window is handled |
| Driver.ValidateDocstringsReports | src/rigorq/checks/docstrings.py:634-703 | the result is the concatenated reports of the handled docstrings, and each violation carries the path, tool `rigorq` and a docstring code |
| Driver.CheckLines | src/rigorq/checks/docstrings.py:658-663 | the loop appends one rule's line violations in line order |
| Driver.RunRules | src/rigorq/checks/docstrings.py:656-669 | the loop appends, rule by rule, the line violations and then the whole-docstring violations |
| Driver.ProcessDocstring | src/rigorq/checks/docstrings.py:638-669 | the method performs one step of `process_docstring` on the handled set and the violation list |
| Driver.ProcessCandidates | src/rigorq/checks/docstrings.py:696-701 | the loop processes a window's candidates in token order |
| Driver.ProcessWalk | src/rigorq/checks/docstrings.py:684-701 | the loop over the walk processes each class and function window in walk order, and nothing for other nodes |
| Driver.RunValidateDocstrings | src/rigorq/checks/docstrings.py:625-703 | the nested loops over the module window and the walk compute `ValidateDocstrings` |
| Reporting.CodeColour | src/rigorq/reporter.py:131-135 | cyan exactly for codes starting with E, W, D or N, otherwise magenta |
| Reporting.RigorqCodesMagenta | src/rigorq/reporter.py:131-135 | rigorq's own codes are shown in magenta |
| Reporting.StripAnsiKeepsText | src/rigorq/reporter.py:124-140 | removing escapes keeps text without escape characters unchanged |
| Reporting.ColourShowsPlainLine | src/rigorq/reporter.py:124-142 | the coloured line with its escape sequences removed is exactly the plain line |
| Reporting.PlainLineReadBack | src/rigorq/reporter.py:142 | a plain line read back by the Ruff-output reader gives back the path, line and column, with code and message together in the code field |
| Reporting.BumpCounts | src/rigorq/reporter.py:151 | counting a tool raises its count by one and leaves every other count alone |
| Reporting.BumpTotal | src/rigorq/reporter.py:151 | counting raises the sum of the counts by one |
| Reporting.BumpKeeps | src/rigorq/reporter.py:151 | counting keeps the tools distinct and every count positive |
| Reporting.TallyCountsTools | src/rigorq/reporter.py:146-151 | each tool's count is its number of violations, the counts sum to the total, no tool appears twice, and every count is positive |
| Reporting.PathsCounted | src/rigorq/reporter.py:147-157 | the affected files are exactly the violations' paths; there are no more of them than violations and at least one when there is a violation |
| Reporting.SummaryConsistent | src/rigorq/reporter.py:144-158 | the total is the number of violations and the per-tool counts sum to it. There are no more files than violations, and at least one file when there is a violation |
| Reporting.KeyLessTransitive | src/rigorq/reporter.py:163 | the print key order is transitive |
| Reporting.KeyLessAsymmetric | src/rigorq/reporter.py:163 | the print key order is asymmetric |
| Reporting.InsertPermutes | src/rigorq/reporter.py:163 | inserting adds exactly one element |
| Reporting.InsertSorted | src/rigorq/reporter.py:163 | inserting into a sorted sequence keeps it sorted |
| Reporting.SortByKeyCorrect | src/rigorq/reporter.py:163 | the sort gives a sorted permutation of its input |
| Reporting.FixChoice | src/rigorq/reporter.py:240-252 | "all fixed" exactly when some were fixed and none remain. "Partly fixed" exactly when some were fixed and some remain. "None fixed" exactly when none were fixed and some remain. Otherwise nothing is printed |
| Reporting.FixColourShowsPlainMessage | src/rigorq/reporter.py:232-252 | the coloured fix message with its escapes removed is the plain one |
| Reporting.Reporter.constructor | src/rigorq/reporter.py:66-77 | a new reporter has no violations and no errors and keeps its colour and quiet settings |
| Reporting.Reporter.AddViolation | src/rigorq/reporter.py:79-81 | appends the violation; the errors are unchanged |
| Reporting.Reporter.AddViolations | src/rigorq/reporter.py:83-85 | appends the violations in order; the errors are unchanged |
| Reporting.Reporter.AddError | src/rigorq/reporter.py:87-89 | appends the error; the violations are unchanged |
| Reporting.Reporter.IsClean | src/rigorq/reporter.py:91-93 | clean exactly when there are neither violations nor errors |
| Reporting.Reporter.ExitCode | src/rigorq/reporter.py:95-104 | as written: 2 exactly when there are errors, 0 exactly when there are none, violations or not |
| Reporting.Reporter.IntendedExitCode | src/rigorq/reporter.py:95-101 | corrected: 0 exactly when clean, 1 exactly when there are violations but no errors, 2 exactly when there are errors |
| Reporting.ExitCodeIgnoresViolations | src/rigorq/reporter.py:102-104 | with violations and no errors the code as written gives 0, where 1 is documented |
| Reporting.ViolationsOnlyExitZero | src/rigorq/reporter.py:79-104 | a reporter given one violation is not clean yet exits 0 |
| Reporting.Reporter.FormatViolation | src/rigorq/reporter.py:106-142 | without colour the line is `path:line:col: code message`. With colour it is the coloured line, which shows the code painted cyan for E, W, D and N codes and magenta otherwise, and removing the escapes gives the plain line |
| Reporting.CodePainted | src/rigorq/reporter.py:131-140 | the coloured line contains the code painted in the colour its prefix selects |
| Reporting.Reporter.GenerateSummary | src/rigorq/reporter.py:144-158 | the loop computes the summary of the violations; the per-tool counts sum to the total, and there are no more files than violations |
| Reporting.Reporter.PrintOrder | src/rigorq/reporter.py:163 | the violations in print order are sorted by path, line and column, and are a permutation of the recorded ones |
| Reporting.Reporter.ShowsSummary | src/rigorq/reporter.py:172 | the summary is printed exactly when not quiet and there is a violation or an error |
| Reporting.Reporter.FixSummary | src/rigorq/reporter.py:221-252 | nothing in quiet mode. Otherwise a message exactly when one of the three cases applies, and the message is that case's text in the reporter's colour setting |

## Left out

- File reading, UTF-8 decoding, `ast.parse` and `tokenize`
  (src/rigorq/checks/docstrings.py:605-623), with their errors: the source
  text, tree and tokens are parameters of `Driver.ValidateDocstrings`.
- Driver.ValidateDocstrings: requires every STRING token to lie within the
  source's lines. Tokens from `tokenize` of the same text always do. An
  unplaced token would make `_extract_docstring_lines` raise IndexError,
  which is not modelled.
- The tree's `end_lineno` is taken as present on every class and function
  node, as it is from Python 3.8 on. The fallback to `lineno` is not
  modelled.
- `run_ruff` and `_ensure_ruff_installed`: the subprocess calls, the
  directory search and the return-code handling are I/O.
- `Reporter.print` and `_print_summary`: writing to stdout and stderr, and
  the text of the summary lines. Modelled instead: the print order, the
  line format and the decision to print the summary.
- `print_fix_summary`: writing to stderr. Modelled instead: the choice of
  message and its text.
- TTY detection for the colour default: colour is a constructor argument.
- utils.py, engine.py and cli.py are not part of this model.
- Validators.CheckParameters / Driver.ValidateDocstrings: where the rule as
  written raises ValueError (a parameter line such as `x : ` or `    : int`,
  whose raw line holds `" : "` but whose stripped line does not), the
  exception leaves `validate_docstrings`, the caller records an error for
  the file, every violation found in that file is lost, and the run exits
  with code 2. The model reports the corrected RQ206 violation at that line
  instead and keeps the file's other violations. The as-written scan and
  the raise are modelled (`Validators.ScanAsWritten`,
  `Validators.UnpackErrorCause`, `Validators.EmptyTypeRaises`), and
  `Validators.ParametersAgainstAsWritten` states that the two agree
  everywhere else.
- Validators.ValidateParameters: computes the corrected rule, so the as-written raise
  is not carried (see the line above).
- Validators.RunValidateDocstring: runs the corrected RQ206 rule, so the as-written
  raise is not carried (see above).
- Validators.ValidateDocstring: uses the corrected RQ206 rule, so the
  as-written raise is not carried (see above).
- Driver.RunValidateDocstrings: uses the corrected RQ206 rule, so the
  as-written raise and the loss of the file's violations are not carried
  (see above).
- Driver.ValidateDocstringsReports: the reports are those of the corrected
  RQ206 rule (see above).
- Style.JoinPath: pathlib's normalisation is not modelled. `./` prefixes,
  doubled `/` and a trailing `/` are kept, and the base `/` gives `//a.py`
  here where pathlib gives `/a.py`.
- Reporting.Reporter.PrintOrder: does not state that violations with equal
  keys keep their insertion order (Python's sort is stable). The insertion
  sort used is stable, but this is not proved.
- PyStr.ParseInt: `int()` also accepts non-ASCII decimal digits. Only
  ASCII digits, a sign and single underscores between digits are modelled.
- Python strings are sequences of code points; here they are sequences of
  Dafny `char`, with Python's line-break and whitespace sets.
- `description` strings of the rules appear only inside the messages that
  use them.

## Findings

| source | as written | input that shows it | evidently intended | confidence | as-written member | corrected member |
|---|---|---|---|---|---|---|
| src/rigorq/checks/docstrings.py:367-372 | the guard tests `" : "` in the raw line, then unpacks the split of the stripped line | the parameter line `x : ` (trailing space): the raw line holds `" : "` but the stripped `x :` does not, so the unpacking raises ValueError out of the rule | report RQ206 "Parameter must be in format '<name> : <type>'" at that line, since the rules are meant never to raise | not executed | Validators.EmptyTypeRaises | Validators.ScanParameterSection |
| src/rigorq/reporter.py:102-104 | `return 0 if self._violations else 0` | a reporter with one violation and no errors returns 0 | return 1 when there are violations and no errors, as the docstring and module header document | not executed | Reporting.ExitCodeIgnoresViolations | Reporting.Reporter.IntendedExitCode |
