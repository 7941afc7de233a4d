/**
 * The three docstring rules of rigorq/checks/docstrings.py: line length
 * (RQ200), a summary that is present and ends with a period (RQ202 and
 * RQ203), and the NumPy parameter/return layout (RQ206). Each rule is a
 * value of `Validator`; its line check and its whole-docstring check are
 * functions of that value, and the loops of the source are methods proved
 * to compute them.
 */
module Validators {
  import opened Wrappers
  import opened PyStr
  import opened Style
  import opened Docstrings

  /** A rule and its settings. */
  datatype Validator =
    | MaxLineLength(maxLength: int)
    | FirstLineSummary(requirePeriod: bool)
    | ParameterReturn

  /** The rules run when none are given, in this order. */
  const DefaultValidators: seq<Validator> := [MaxLineLength(72), FirstLineSummary(true), ParameterReturn]

  function Code(v: Validator): string {
    match v
    case MaxLineLength(_) => "RQ200"
    case FirstLineSummary(_) => "RQ202"
    case ParameterReturn => "RQ206"
  }

  function Description(v: Validator): string {
    match v
    case MaxLineLength(m) => "Docstring line too long (max " + IntToString(m) + " chars)"
    case FirstLineSummary(_) => "Docstring must start with one-line summary"
    case ParameterReturn => "Docstring must follow strict NumPy parameter/return format"
  }

  /** The texts of the raw lines, numbers dropped. */
  function Texts(rawLines: seq<RawLine>): (r: seq<string>)
    ensures |r| == |rawLines| && forall k :: 0 <= k < |r| ==> r[k] == rawLines[k].1
  {
    seq(|rawLines|, k requires 0 <= k < |rawLines| => rawLines[k].1)
  }

  // ---------------------------------------------------------------------
  // RQ200: line length
  // ---------------------------------------------------------------------

  /** A raw line that is exactly a bare delimiter or a pair of them. */
  predicate IsDelimiterLine(raw: string) {
    raw == TripleDouble || raw == TripleSingle || raw == TripleDouble + TripleDouble || raw == TripleSingle + TripleSingle
  }

  /**
   * `MaxLineLengthValidator.validate_line`: a raw line longer than the
   * maximum, indentation included, is reported at column 0, unless it is a
   * bare delimiter line; the message names both lengths.
   */
  function CheckLineLength(maxLength: int, lineNum: int, raw: string, path: Path): (r: Option<Violation>)
    ensures r.Some? <==> !IsDelimiterLine(raw) && |raw| > maxLength
    ensures r.Some? ==>
              && r.value.path == path && r.value.line == lineNum && r.value.column == 0
              && r.value.code == "RQ200" && r.value.tool == "rigorq"
              && Contains(r.value.message, IntToString(|raw|))
              && Contains(r.value.message, IntToString(maxLength))
  {
    if IsDelimiterLine(raw) then None
    else if |raw| > maxLength then Some(Violation(path, lineNum, 0, "RQ200", LengthMessage(|raw|, maxLength), "rigorq"))
    else None
  }

  /** The RQ200 message: the description, then "(<length> > <maximum>)". */
  function LengthMessage(length: int, maxLength: int): (m: string)
    ensures Contains(m, IntToString(length)) && Contains(m, IntToString(maxLength))
  {
    var head := Description(MaxLineLength(maxLength)) + " (";
    var message := head + IntToString(length) + " > " + IntToString(maxLength) + ")";
    ContainsMiddle(head, IntToString(length), " > " + IntToString(maxLength) + ")");
    assert message == head + IntToString(length) + (" > " + IntToString(maxLength) + ")");
    ContainsMiddle(head + IntToString(length) + " > ", IntToString(maxLength), ")");
    message
  }

  /** A delimiter line with leading indentation is measured like any other line. */
  lemma IndentedDelimiterMeasured(indent: string, maxLength: int, lineNum: int, path: Path)
    requires indent != [] && IsBlank(indent) && |indent| + 3 > maxLength
    ensures CheckLineLength(maxLength, lineNum, indent + TripleDouble, path).Some?
  {
    var raw := indent + TripleDouble;
    assert raw[0] == indent[0] && IsSpace(raw[0]);
    assert !IsDelimiterLine(raw);
  }

  // ---------------------------------------------------------------------
  // RQ202 / RQ203: the summary
  // ---------------------------------------------------------------------

  /** What one raw line adds to the summary, and whether the collection goes on after it. */
  datatype SummaryStep = SummaryStep(parts: seq<string>, goOn: bool)

  /**
   * One pass of the summary loop: a blank line ends it; a line holding a
   * whole one-line docstring gives its inner text and ends it; an opening
   * delimiter gives what follows it; any other line gives itself.
   */
  function SummaryStepOf(raw: string): (r: SummaryStep)
    ensures |r.parts| <= 1
    ensures Strip(raw) == [] ==> r == SummaryStep([], false)
  {
    var stripped := Strip(raw);
    if stripped == [] then SummaryStep([], false)
    else if HasOpeningDelimiter(stripped) then
      if HasClosingDelimiter(stripped) && |stripped| > 6 then
        var inner := Strip(stripped[3..|stripped| - 3]);
        SummaryStep(if inner != [] then [inner] else [], false)
      else
        var after := Strip(stripped[3..]);
        SummaryStep(if after != [] then [after] else [], true)
    else SummaryStep([stripped], true)
  }

  /** The part a step gives, if any, is non-empty and already stripped. */
  lemma SummaryStepStripped(raw: string)
    ensures var parts := SummaryStepOf(raw).parts;
            parts == [] || (parts[0] != [] && Strip(parts[0]) == parts[0])
  {
    var stripped := Strip(raw);
    DelimiterLength(stripped);
    if stripped == [] {
    } else if HasOpeningDelimiter(stripped) {
      if HasClosingDelimiter(stripped) && |stripped| > 6 {
        StripIdempotent(stripped[3..|stripped| - 3]);
      } else {
        StripIdempotent(stripped[3..]);
      }
    } else {
      StripIdempotent(raw);
    }
  }

  /** The summary lines `FirstLineSummaryValidator` collects from the raw texts. */
  function SummaryLines(texts: seq<string>): (r: seq<string>)
    ensures |r| <= |texts|
    decreases |texts|
  {
    if texts == [] then []
    else
      var step := SummaryStepOf(texts[0]);
      if step.goOn then step.parts + SummaryLines(texts[1..]) else step.parts
  }

  /** Lines that are all non-empty and already stripped. */
  predicate AllStripped(lines: seq<string>) {
    forall k :: 0 <= k < |lines| ==> lines[k] != [] && Strip(lines[k]) == lines[k]
  }

  lemma AllStrippedAppend(a: seq<string>, b: seq<string>)
    requires AllStripped(a) && AllStripped(b)
    ensures AllStripped(a + b)
  {
    forall k | 0 <= k < |a + b|
      ensures (a + b)[k] != [] && Strip((a + b)[k]) == (a + b)[k]
    {
      if k >= |a| {
        assert (a + b)[k] == b[k - |a|];
      }
    }
  }

  /** Every collected summary line is non-empty and already stripped. */
  lemma {:induction false} SummaryLinesStripped(texts: seq<string>)
    ensures AllStripped(SummaryLines(texts))
    decreases |texts|
  {
    if texts != [] {
      var step := SummaryStepOf(texts[0]);
      SummaryStepStripped(texts[0]);
      assert AllStripped(step.parts);
      if step.goOn {
        SummaryLinesStripped(texts[1..]);
        AllStrippedAppend(step.parts, SummaryLines(texts[1..]));
      }
    }
  }

  /** Nothing after the first blank line takes part in the summary. */
  lemma {:induction false} SummaryStopsAtBlank(texts: seq<string>, k: int)
    requires 0 <= k < |texts| && Strip(texts[k]) == []
    ensures SummaryLines(texts) == SummaryLines(texts[..k])
    decreases k
  {
    if k == 0 {
      assert SummaryStepOf(texts[0]) == SummaryStep([], false);
    } else {
      var step := SummaryStepOf(texts[0]);
      assert texts[..k][0] == texts[0];
      assert texts[..k][1..] == texts[1..][..k - 1];
      if step.goOn {
        SummaryStopsAtBlank(texts[1..], k - 1);
      }
    }
  }

  /** A delimited one-line body starts and ends with a quote. */
  lemma DelimitedBody(body: string, q: string, summary: string)
    requires q == TripleDouble || q == TripleSingle
    requires body == q + summary + q
    ensures body != [] && !IsSpace(body[0]) && !IsSpace(body[|body| - 1])
  {
    assert body[0] == q[0] && body[|body| - 1] == q[2];
  }

  /** A line that strips to a delimited one-line body gives its stripped inner text and stops. */
  lemma DelimitedStep(raw: string, body: string, q: string, summary: string)
    requires q == TripleDouble || q == TripleSingle
    requires summary != [] && Strip(summary) == summary
    requires body == q + summary + q && Strip(raw) == body
    ensures SummaryStepOf(raw) == SummaryStep([summary], false)
  {
    assert body[..3] == q && body[|body| - 3..] == q;
    assert HasOpeningDelimiter(body) && HasClosingDelimiter(body);
    assert body[3..|body| - 3] == summary;
  }

  /** A whole one-line docstring on the first line is the summary, and nothing after it counts. */
  lemma OneLineDocstringSummary(indent: string, q: string, summary: string, rest: seq<string>)
    requires q == TripleDouble || q == TripleSingle
    requires IsBlank(indent) && summary != [] && Strip(summary) == summary
    ensures SummaryLines([indent + q + summary + q] + rest) == [summary]
  {
    var body := q + summary + q;
    var raw := indent + q + summary + q;
    assert raw == indent + body;
    DelimitedBody(body, q, summary);
    StripLeading(indent, body);
    DelimitedStep(raw, body, q, summary);
    assert ([raw] + rest)[0] == raw;
  }

  const NoSummaryMessage: string := "Docstring is empty or has no summary line"
  const PeriodMessage: string := "Last line of summary should end with a period"

  /**
   * `FirstLineSummaryValidator.validate_docstring`: RQ202 when no summary
   * text was collected, else RQ203 when a period is required and the last
   * summary line does not end with one; both at the docstring's first line.
   */
  function CheckSummary(requirePeriod: bool, info: DocstringInfo, path: Path): (r: seq<Violation>)
    ensures |r| <= 1
    ensures forall k :: 0 <= k < |r| ==>
              r[k].path == path && r[k].line == info.startLine && r[k].column == 0 && r[k].tool == "rigorq"
              && r[k].code in {"RQ202", "RQ203"}
    ensures (r != [] && r[0].code == "RQ202") <==> SummaryLines(Texts(info.rawLines)) == []
    ensures var first := SummaryLines(Texts(info.rawLines));
            (r != [] && r[0].code == "RQ203") <==>
              first != [] && requirePeriod && !EndsWith(RStrip(first[|first| - 1]), ".")
  {
    SummaryViolations(SummaryLines(Texts(info.rawLines)), requirePeriod, info.startLine, path)
  }

  /** The violations the collected summary lines give, at the docstring's first line. */
  function SummaryViolations(first: seq<string>, requirePeriod: bool, startLine: int, path: Path): (r: seq<Violation>)
    ensures |r| <= 1
    ensures forall k :: 0 <= k < |r| ==>
              r[k].path == path && r[k].line == startLine && r[k].column == 0 && r[k].tool == "rigorq"
              && r[k].code in {"RQ202", "RQ203"}
    ensures (r != [] && r[0].code == "RQ202") <==> first == []
    ensures (r != [] && r[0].code == "RQ203") <==>
              first != [] && requirePeriod && !EndsWith(RStrip(first[|first| - 1]), ".")
  {
    if first == [] then
      [Violation(path, startLine, 0, "RQ202", NoSummaryMessage, "rigorq")]
    else if requirePeriod && !EndsWith(RStrip(first[|first| - 1]), ".") then
      [Violation(path, startLine, 0, "RQ203", PeriodMessage, "rigorq")]
    else []
  }

  /** The summary lines from index `i` on: the step of line `i`, then the rest if it goes on. */
  lemma SummaryLinesFrom(texts: seq<string>, i: int)
    requires 0 <= i < |texts|
    ensures var step := SummaryStepOf(texts[i]);
            SummaryLines(texts[i..]) == if step.goOn then step.parts + SummaryLines(texts[i + 1..]) else step.parts
  {
    assert texts[i..][0] == texts[i] && texts[i..][1..] == texts[i + 1..];
  }

  lemma AppendAssoc(a: seq<string>, b: seq<string>, c: seq<string>)
    ensures a + b + c == a + (b + c)
  {
  }

  /** The loop that collects the summary lines, with its early exits. */
  method CollectSummaryLines(rawLines: seq<RawLine>) returns (firstLines: seq<string>)
    ensures firstLines == SummaryLines(Texts(rawLines))
  {
    ghost var texts := Texts(rawLines);
    firstLines := [];
    assert texts[0..] == texts;
    for i := 0 to |rawLines|
      invariant firstLines + SummaryLines(texts[i..]) == SummaryLines(texts)
    {
      SummaryLinesFrom(texts, i);
      ghost var step := SummaryStepOf(rawLines[i].1);
      var stripped := Strip(rawLines[i].1);
      if |stripped| == 0 {
        assert step.parts == [] && !step.goOn;
        assert firstLines + [] == firstLines;
        return;
      }
      if HasOpeningDelimiter(stripped) {
        if HasClosingDelimiter(stripped) && |stripped| > 6 {
          var inner := Strip(stripped[3..|stripped| - 3]);
          assert step == SummaryStep(if inner != [] then [inner] else [], false);
          if inner != [] {
            firstLines := firstLines + [inner];
          } else {
            assert firstLines + [] == firstLines;
          }
          return;
        }
        var contentAfterDelim := Strip(stripped[3..]);
        assert step == SummaryStep(if contentAfterDelim != [] then [contentAfterDelim] else [], true);
        AppendAssoc(firstLines, step.parts, SummaryLines(texts[i + 1..]));
        if contentAfterDelim != [] {
          firstLines := firstLines + [contentAfterDelim];
        } else {
          assert firstLines + step.parts == firstLines;
        }
        continue;
      } else {
        assert step == SummaryStep([stripped], true);
        AppendAssoc(firstLines, step.parts, SummaryLines(texts[i + 1..]));
        firstLines := firstLines + [stripped];
      }
    }
    assert texts[|rawLines|..] == [];
    assert firstLines + [] == firstLines;
  }

  /** `FirstLineSummaryValidator.validate_docstring` as the source runs it. */
  method ValidateSummary(requirePeriod: bool, info: DocstringInfo, path: Path) returns (violations: seq<Violation>)
    ensures violations == CheckSummary(requirePeriod, info, path)
  {
    var firstLines := CollectSummaryLines(info.rawLines);
    violations := SummaryViolations(firstLines, requirePeriod, info.startLine, path);
  }

  // ---------------------------------------------------------------------
  // RQ206: the NumPy parameter/return layout
  // ---------------------------------------------------------------------

  const Indent: string := "    "
  const ParamHeading: string := "Parameters"
  const ParamUnderline: string := "----------"
  const ReturnsHeading: string := "Returns"
  const ReturnsUnderline: string := "-------"
  const Separator: string := " : "

  /** What the scan reports when the layout does not conform. */
  datatype Problem =
    | NoParameters | NoParametersUnderline | BadParameterFormat | BadParameterIndent
    | NoBlankLine | NoReturns | NoReturnsUnderline | NoReturnType | BadReturnIndent

  /** The problems that concern the Returns section. */
  predicate IsReturnsProblem(p: Problem) {
    p.NoBlankLine? || p.NoReturns? || p.NoReturnsUnderline? || p.NoReturnType? || p.BadReturnIndent?
  }

  /** The message the source reports for each problem. */
  function ProblemMessage(p: Problem): string {
    match p
    case NoParameters => "Missing 'Parameters' section in docstring"
    case NoParametersUnderline => "Missing dashed underline under 'Parameters'"
    case BadParameterFormat => "Parameter must be in format '<name> : <type>'"
    case BadParameterIndent => "Parameter description must be indented by 4 spaces"
    case NoBlankLine => "Expected blank line after parameter block"
    case NoReturns => "Missing 'Returns' section after parameters"
    case NoReturnsUnderline => "Missing dashed underline under 'Returns'"
    case NoReturnType => "Return type must be specified"
    case BadReturnIndent => "Return description must be indented by 4 spaces"
  }

  /**
   * How the scan of the lines ends: the layout conforms, or the first
   * mismatch at an offset from the docstring's first line, or (as written)
   * the ValueError raised by unpacking a parameter line that does not split.
   */
  datatype ScanOutcome = Conforms | Mismatch(offset: int, problem: Problem) | UnpackError(offset: int)

  /** The first index from `i` on whose line strips to `target`, or the number of lines. */
  function FindStripped(lines: seq<string>, i: nat, target: string): (r: nat)
    requires i <= |lines|
    ensures i <= r <= |lines|
    ensures r < |lines| ==> Strip(lines[r]) == target
    decreases |lines| - i
  {
    if i == |lines| then i
    else if Strip(lines[i]) == target then i
    else FindStripped(lines, i + 1, target)
  }

  /** No line between `i` and the one `FindStripped` reports strips to `target`. */
  lemma {:induction false} FindStrippedFirst(lines: seq<string>, i: nat, target: string)
    requires i <= |lines|
    ensures forall k :: i <= k < FindStripped(lines, i, target) ==> Strip(lines[k]) != target
    decreases |lines| - i
  {
    if i < |lines| && Strip(lines[i]) != target {
      FindStrippedFirst(lines, i + 1, target);
    }
  }

  /** The first index from `i` on whose line does not start with four spaces, or the number of lines. */
  function SkipIndented(lines: seq<string>, i: nat): (r: nat)
    requires i <= |lines|
    ensures i <= r <= |lines|
    ensures r < |lines| ==> !StartsWith(lines[r], Indent)
    ensures forall k :: i <= k < r ==> StartsWith(lines[k], Indent)
    decreases |lines| - i
  {
    if i == |lines| then i
    else if !StartsWith(lines[i], Indent) then i
    else SkipIndented(lines, i + 1)
  }

  /** The part of the layout the scan expects next. */
  datatype Stage = HeadingPart | ParameterLine | DescriptionPart | ReturnsPart

  /** How many parts remain after the one expected. */
  function Remaining(stage: Stage): nat {
    match stage
    case HeadingPart => 3
    case ParameterLine => 2
    case DescriptionPart => 1
    case ReturnsPart => 0
  }

  /**
   * The scan of `ParameterReturnDefinitionValidator.validate_docstring` as
   * written, from line `i` and expecting `stage`; the first mismatch ends it.
   *  - HeadingPart: the first line from `i` that strips to "Parameters", and
   *    then its underline;
   *  - ParameterLine: a `name : type` line whose stripped text splits at the
   *    first " : " into a non-empty name and type;
   *  - DescriptionPart: at least one line indented by four spaces; a class
   *    stops after them, anything else goes on to the Returns part;
   *  - ReturnsPart: a blank line (or the end), "Returns", its underline, a
   *    non-blank return type and an indented description.
   */
  function Scan(lines: seq<string>, i: nat, stage: Stage, isClass: bool): (r: ScanOutcome)
    requires i <= |lines|
    ensures r.Mismatch? ==> i <= r.offset <= |lines| + 1
    ensures r.UnpackError? ==> i <= r.offset < |lines| && !stage.DescriptionPart? && !stage.ReturnsPart?
    ensures r.UnpackError? && stage.HeadingPart? ==> i + 2 <= r.offset
    ensures r.UnpackError? && stage.ParameterLine? ==> r.offset == i
    ensures isClass && r.Mismatch? && !stage.ReturnsPart? ==> !IsReturnsProblem(r.problem)
    ensures isClass && r.Mismatch? && stage.DescriptionPart? ==> r.problem == BadParameterIndent
    ensures r.Mismatch? && stage.ReturnsPart? ==> IsReturnsProblem(r.problem)
    ensures stage.HeadingPart? ==>
              (r.Mismatch? && r.offset == i <==> FindStripped(lines, i, ParamHeading) == |lines|)
    ensures stage.HeadingPart? && r.Mismatch? && r.offset == i ==> r.problem == NoParameters
    decreases Remaining(stage)
  {
    var n := |lines|;
    match stage
    case HeadingPart =>
      var p := FindStripped(lines, i, ParamHeading);
      if p == n then Mismatch(i, NoParameters)
      else if p + 1 >= n || Strip(lines[p + 1]) != ParamUnderline then Mismatch(p + 1, NoParametersUnderline)
      else Scan(lines, p + 2, ParameterLine, isClass)
    case ParameterLine =>
      if i >= n || !Contains(lines[i], Separator) then Mismatch(i, BadParameterFormat)
      else
        var t := Strip(lines[i]);
        var at := Find(t, Separator);
        if at == -1 then UnpackError(i)
        else if t[..at] == [] || t[at + 3..] == [] then Mismatch(i, BadParameterFormat)
        else Scan(lines, i + 1, DescriptionPart, isClass)
    case DescriptionPart =>
      if i >= n || !StartsWith(lines[i], Indent) then Mismatch(i, BadParameterIndent)
      else
        var j := SkipIndented(lines, i);
        if isClass then Conforms else Scan(lines, j, ReturnsPart, false)
    case ReturnsPart =>
      if i < n && Strip(lines[i]) != "" then Mismatch(i, NoBlankLine)
      else
        var i := i + 1;
        if i >= n || Strip(lines[i]) != ReturnsHeading then Mismatch(i, NoReturns)
        else if i + 1 >= n || Strip(lines[i + 1]) != ReturnsUnderline then Mismatch(i + 1, NoReturnsUnderline)
        else
          var i := i + 2;
          if i >= n || Strip(lines[i]) == "" then Mismatch(i, NoReturnType)
          else
            var i := i + 1;
            if i >= n || !StartsWith(lines[i], Indent) then Mismatch(i, BadReturnIndent)
            else Conforms
  }

  /** The whole scan as written, from the first line. */
  function ScanAsWritten(lines: seq<string>, isClass: bool): (r: ScanOutcome)
    ensures r.Mismatch? ==> 0 <= r.offset <= |lines| + 1
    ensures r.UnpackError? ==> 2 <= r.offset < |lines|
    ensures isClass && r.Mismatch? ==> !IsReturnsProblem(r.problem)
  {
    Scan(lines, 0, HeadingPart, isClass)
  }

  /**
   * The scan reports at offset 0 exactly when no line strips to
   * "Parameters", and then it reports the missing section.
   */
  lemma MissingHeadingAtFirstLine(lines: seq<string>, isClass: bool)
    ensures var r := ScanAsWritten(lines, isClass);
            && (r.Mismatch? && r.offset == 0 <==> forall k :: 0 <= k < |lines| ==> Strip(lines[k]) != ParamHeading)
            && (r.Mismatch? && r.offset == 0 ==> r.problem == NoParameters)
  {
    var p := FindStripped(lines, 0, ParamHeading);
    assert ScanAsWritten(lines, isClass) == Scan(lines, 0, HeadingPart, isClass);
    FindStrippedFirst(lines, 0, ParamHeading);
    if p < |lines| {
      assert Strip(lines[p]) == ParamHeading;
    }
  }

  /**
   * The scan raises only on a parameter line, two lines after the
   * "Parameters" heading, that holds " : " before stripping but not after.
   */
  lemma UnpackErrorCause(lines: seq<string>, isClass: bool)
    ensures var r := ScanAsWritten(lines, isClass);
            r.UnpackError? ==>
              && Strip(lines[r.offset - 2]) == ParamHeading
              && Contains(lines[r.offset], Separator) && !Contains(Strip(lines[r.offset]), Separator)
  {
    var r := ScanAsWritten(lines, isClass);
    if r.UnpackError? {
      var p := FindStripped(lines, 0, ParamHeading);
      var i := p + 2;
      assert r == Scan(lines, i, ParameterLine, isClass);
      assert r.offset - 2 == p;
      ParameterLineUnpackError(lines, i, isClass);
    }
  }

  /** The parameter line raises only when it holds " : " before stripping but not after. */
  lemma ParameterLineUnpackError(lines: seq<string>, i: nat, isClass: bool)
    requires i <= |lines|
    ensures Scan(lines, i, ParameterLine, isClass).UnpackError? ==>
              Contains(lines[i], Separator) && !Contains(Strip(lines[i]), Separator)
  {
    if i < |lines| && Contains(lines[i], Separator) {
      var t := Strip(lines[i]);
      assert Contains(t, Separator) <==> Find(t, Separator) != -1;
    }
  }

  /**
   * The check that the name or the type is empty never fires: a stripped
   * line neither starts nor ends with the space around " : ".
   */
  lemma NameAndTypeNeverEmpty(line: string)
    requires Contains(Strip(line), Separator)
    ensures var t := Strip(line);
            var at := Find(t, Separator);
            t[..at] != [] && t[at + 3..] != []
  {
    var t := Strip(line);
    var at := Find(t, Separator);
    assert t[at..at + 3] == Separator;
    assert t[at] == ' ' && t[at + 2] == ' ';
    assert !IsSpace(t[0]) && !IsSpace(t[|t| - 1]);
  }

  /**
   * The scan with unpacking corrected: a parameter line that holds " : "
   * only where stripping removes a space is reported as a format mismatch
   * at that line instead of raising.
   */
  function ScanParameterSection(lines: seq<string>, isClass: bool): (r: ScanOutcome)
    ensures !r.UnpackError?
    ensures r.Mismatch? ==> 0 <= r.offset <= |lines| + 1
    ensures isClass && r.Mismatch? ==> !IsReturnsProblem(r.problem)
    ensures ScanAsWritten(lines, isClass).UnpackError? ==>
              r == Mismatch(ScanAsWritten(lines, isClass).offset, BadParameterFormat)
    ensures !ScanAsWritten(lines, isClass).UnpackError? ==> r == ScanAsWritten(lines, isClass)
  {
    Corrected(ScanAsWritten(lines, isClass))
  }

  /** The corrected scan, too, reports at offset 0 exactly when no line strips to "Parameters". */
  lemma SectionMissingHeading(lines: seq<string>, isClass: bool)
    ensures var r := ScanParameterSection(lines, isClass);
            && (r.Mismatch? && r.offset == 0 <==> forall k :: 0 <= k < |lines| ==> Strip(lines[k]) != ParamHeading)
            && (r.Mismatch? && r.offset == 0 ==> r.problem == NoParameters)
  {
    MissingHeadingAtFirstLine(lines, isClass);
  }

  /** An outcome with the unpacking failure turned into the format mismatch at its line. */
  function Corrected(o: ScanOutcome): (r: ScanOutcome)
    ensures !r.UnpackError?
    ensures o.UnpackError? ==> r == Mismatch(o.offset, BadParameterFormat)
    ensures !o.UnpackError? ==> r == o
  {
    match o
    case UnpackError(i) => Mismatch(i, BadParameterFormat)
    case other => other
  }

  /**
   * The parameter line "x : " (an empty type) holds " : " before stripping
   * but not after: as written the scan raises, corrected it reports the
   * format mismatch at that line.
   */
  lemma EmptyTypeRaises()
    ensures ScanAsWritten([ParamHeading, ParamUnderline, "x : "], false) == UnpackError(2)
    ensures ScanParameterSection([ParamHeading, ParamUnderline, "x : "], false) == Mismatch(2, BadParameterFormat)
  {
    var lines := [ParamHeading, ParamUnderline, "x : "];
    LayoutLiterals();
    HeadingFound(lines, 0);
    HeaderConforms(lines, 0, false);
    EmptyTypeLine();
    ParameterLineRaises(lines, 2, false);
  }

  /** "x : " holds " : ", and its stripped text "x :" does not. */
  lemma EmptyTypeLine()
    ensures Contains("x : ", Separator) && !Contains(Strip("x : "), Separator)
  {
    ContainsMiddle("x", Separator, "");
    assert "x" + Separator + "" == "x : ";
    StripPadded([], "x :", " ");
    assert [] + "x :" + " " == "x : ";
    assert !OccursAt("x :", Separator, 0);
  }

  /** A parameter line that holds " : " only across the whitespace that stripping removes raises. */
  lemma ParameterLineRaises(lines: seq<string>, i: nat, isClass: bool)
    requires i < |lines| && Contains(lines[i], Separator) && !Contains(Strip(lines[i]), Separator)
    ensures Scan(lines, i, ParameterLine, isClass) == UnpackError(i)
  {
  }

  /** The heading the scan finds is the first line that strips to "Parameters". */
  lemma HeadingFound(lines: seq<string>, b: int)
    requires 0 <= b < |lines|
    requires forall k :: 0 <= k < b ==> Strip(lines[k]) != ParamHeading
    requires Strip(lines[b]) == ParamHeading
    ensures FindStripped(lines, 0, ParamHeading) == b
  {
    FindStrippedFirst(lines, 0, ParamHeading);
  }

  /** Past the "Parameters" line and its underline, the scan goes on with the parameter line. */
  lemma HeaderConforms(lines: seq<string>, b: int, isClass: bool)
    requires b + 2 <= |lines| && FindStripped(lines, 0, ParamHeading) == b
    requires Strip(lines[b + 1]) == ParamUnderline
    ensures ScanAsWritten(lines, isClass) == Scan(lines, b + 2, ParameterLine, isClass)
  {
  }

  /** A parameter line whose stripped text holds " : " passes, and the scan goes on with the description. */
  lemma ParameterLineConforms(lines: seq<string>, i: int, isClass: bool)
    requires 0 <= i < |lines| && Contains(Strip(lines[i]), Separator)
    ensures Scan(lines, i, ParameterLine, isClass) == Scan(lines, i + 1, DescriptionPart, isClass)
  {
    StripContainment(lines[i], Separator);
    NameAndTypeNeverEmpty(lines[i]);
  }

  /**
   * An indented description of `d` lines from `i`, followed by the end or
   * by an unindented line, passes; a class stops there, anything else goes
   * on with the Returns part after it.
   */
  lemma DescriptionConforms(lines: seq<string>, i: int, e: int, isClass: bool)
    requires 0 <= i < e <= |lines|
    requires forall k :: i <= k < e ==> StartsWith(lines[k], Indent)
    requires e == |lines| || !StartsWith(lines[e], Indent)
    ensures Scan(lines, i, DescriptionPart, isClass) == if isClass then Conforms else Scan(lines, e, ReturnsPart, false)
  {
    assert SkipIndented(lines, i) == e;
  }

  /** A blank line, "Returns", its underline, a return type and an indented description pass. */
  lemma ReturnsConforms(lines: seq<string>, i: int)
    requires 0 <= i && i + 5 <= |lines|
    requires Strip(lines[i]) == "" && Strip(lines[i + 1]) == ReturnsHeading && Strip(lines[i + 2]) == ReturnsUnderline
    requires Strip(lines[i + 3]) != "" && StartsWith(lines[i + 4], Indent)
    ensures Scan(lines, i, ReturnsPart, false) == Conforms
  {
  }

  /** The parameter part of a layout, by line index: heading at `b`, description from `b + 3` up to `e`. */
  predicate ParameterPartAt(lines: seq<string>, b: int, e: int) {
    && 0 <= b && b + 3 < e <= |lines|
    && FindStripped(lines, 0, ParamHeading) == b
    && Strip(lines[b + 1]) == ParamUnderline && Contains(Strip(lines[b + 2]), Separator)
    && (forall k :: b + 3 <= k < e ==> StartsWith(lines[k], Indent))
  }

  /** A conforming parameter part: the scan goes on with the Returns part, or, for a class, passes. */
  lemma ParameterPartConforms(lines: seq<string>, b: int, e: int, isClass: bool)
    requires ParameterPartAt(lines, b, e)
    requires e == |lines| || !StartsWith(lines[e], Indent)
    ensures ScanAsWritten(lines, isClass) == if isClass then Conforms else Scan(lines, e, ReturnsPart, false)
  {
    var i := b + 2;
    var j := i + 1;
    assert j == b + 3;
    HeaderConforms(lines, b, isClass);
    ParameterLineConforms(lines, i, isClass);
    DescriptionConforms(lines, j, e, isClass);
  }

  /** The fixed lines of a layout strip to themselves, and the blank line is not indented. */
  lemma LayoutLiterals()
    ensures Strip(ParamHeading) == ParamHeading && Strip(ParamUnderline) == ParamUnderline
    ensures Strip("") == "" && Strip(ReturnsHeading) == ReturnsHeading && Strip(ReturnsUnderline) == ReturnsUnderline
    ensures !StartsWith("", Indent)
  {
    StripUnchanged(ParamHeading);
    StripUnchanged(ParamUnderline);
    StripUnchanged(ReturnsHeading);
    StripUnchanged(ReturnsUnderline);
  }

  /**
   * A function docstring laid out in full, whatever precedes and follows
   * it, passes the scan.
   */
  lemma ConformingFunctionLayout(
    before: seq<string>, param: string, descr: seq<string>, returnType: string, returnDescr: string, after: seq<string>)
    requires forall k :: 0 <= k < |before| ==> Strip(before[k]) != ParamHeading
    requires Contains(Strip(param), Separator)
    requires descr != [] && forall k :: 0 <= k < |descr| ==> StartsWith(descr[k], Indent)
    requires Strip(returnType) != "" && StartsWith(returnDescr, Indent)
    ensures ScanAsWritten(before + [ParamHeading, ParamUnderline, param] + descr
                          + ["", ReturnsHeading, ReturnsUnderline, returnType, returnDescr] + after, false) == Conforms
  {
    var prefix := before + [ParamHeading, ParamUnderline, param] + descr;
    var tail := ["", ReturnsHeading, ReturnsUnderline, returnType, returnDescr] + after;
    var lines := prefix + tail;
    assert lines == before + [ParamHeading, ParamUnderline, param] + descr
                    + ["", ReturnsHeading, ReturnsUnderline, returnType, returnDescr] + after;
    ParameterPartLayout(before, param, descr, tail);
    ReturnsLayout(prefix, returnType, returnDescr, after);
    ParameterPartConforms(lines, |before|, |prefix|, false);
    ReturnsConforms(lines, |prefix|);
  }

  /** The lines of a layout up to the description form a parameter part that a non-indented line ends. */
  lemma ParameterPartLayout(before: seq<string>, param: string, descr: seq<string>, tail: seq<string>)
    requires forall k :: 0 <= k < |before| ==> Strip(before[k]) != ParamHeading
    requires Contains(Strip(param), Separator)
    requires descr != [] && forall k :: 0 <= k < |descr| ==> StartsWith(descr[k], Indent)
    requires tail == [] || !StartsWith(tail[0], Indent)
    ensures var prefix := before + [ParamHeading, ParamUnderline, param] + descr;
            var lines := prefix + tail;
            && ParameterPartAt(lines, |before|, |prefix|)
            && (|prefix| == |lines| || !StartsWith(lines[|prefix|], Indent))
  {
    var head := before + [ParamHeading, ParamUnderline, param];
    var lines := head + descr + tail;
    assert lines == before + [ParamHeading, ParamUnderline, param] + (descr + tail);
    HeadingLayout(before, param, descr + tail);
    DescriptionLayout(head, descr, tail);
  }

  /** In a layout, "Parameters" is the first line that strips to it, and its underline and parameter line follow. */
  lemma HeadingLayout(before: seq<string>, param: string, rest: seq<string>)
    requires forall k :: 0 <= k < |before| ==> Strip(before[k]) != ParamHeading
    requires Contains(Strip(param), Separator)
    ensures var lines := before + [ParamHeading, ParamUnderline, param] + rest;
            var b := |before|;
            && FindStripped(lines, 0, ParamHeading) == b
            && Strip(lines[b + 1]) == ParamUnderline && Contains(Strip(lines[b + 2]), Separator)
  {
    var lines := before + [ParamHeading, ParamUnderline, param] + rest;
    LayoutHead(before, param, rest);
    LayoutLiterals();
    HeadingFound(lines, |before|);
  }

  /** The indented description lines of a layout, and the line after them. */
  lemma DescriptionLayout(head: seq<string>, descr: seq<string>, tail: seq<string>)
    requires forall k :: 0 <= k < |descr| ==> StartsWith(descr[k], Indent)
    requires tail == [] || !StartsWith(tail[0], Indent)
    ensures var lines := head + descr + tail;
            var e := |head| + |descr|;
            && (forall k :: |head| <= k < e ==> StartsWith(lines[k], Indent))
            && (e == |lines| || !StartsWith(lines[e], Indent))
  {
    var lines := head + descr + tail;
    var e := |head| + |descr|;
    assert forall k :: |head| <= k < e ==> lines[k] == descr[k - |head|];
    assert tail != [] ==> lines[e] == tail[0];
  }

  /** The Returns part of a layout, placed after any prefix, has the lines that part expects. */
  lemma ReturnsLayout(prefix: seq<string>, returnType: string, returnDescr: string, after: seq<string>)
    requires Strip(returnType) != "" && StartsWith(returnDescr, Indent)
    ensures var lines := prefix + (["", ReturnsHeading, ReturnsUnderline, returnType, returnDescr] + after);
            var e := |prefix|;
            && !StartsWith(lines[e], Indent) && Strip(lines[e]) == ""
            && Strip(lines[e + 1]) == ReturnsHeading && Strip(lines[e + 2]) == ReturnsUnderline
            && Strip(lines[e + 3]) != "" && StartsWith(lines[e + 4], Indent)
  {
    var returnPart := ["", ReturnsHeading, ReturnsUnderline, returnType, returnDescr];
    var lines := prefix + (returnPart + after);
    var e := |prefix|;
    assert lines[e] == "" && lines[e + 1] == ReturnsHeading && lines[e + 2] == ReturnsUnderline;
    assert lines[e + 3] == returnType && lines[e + 4] == returnDescr;
    LayoutLiterals();
  }

  /** Where the "Parameters" heading, its underline and the parameter line sit in a layout. */
  lemma LayoutHead(before: seq<string>, param: string, tail: seq<string>)
    ensures var lines := before + [ParamHeading, ParamUnderline, param] + tail;
            var b := |before|;
            && (forall k :: 0 <= k < b ==> lines[k] == before[k])
            && lines[b] == ParamHeading && lines[b + 1] == ParamUnderline && lines[b + 2] == param
            && (forall k :: 0 <= k < |tail| ==> lines[b + 3 + k] == tail[k])
  {
  }

  /**
   * A class docstring needs only the parameter part: once the indented
   * description ends, the scan passes whatever follows.
   */
  lemma ConformingClassLayout(before: seq<string>, param: string, descr: seq<string>, after: seq<string>)
    requires forall k :: 0 <= k < |before| ==> Strip(before[k]) != ParamHeading
    requires Contains(Strip(param), Separator)
    requires descr != [] && forall k :: 0 <= k < |descr| ==> StartsWith(descr[k], Indent)
    requires after == [] || !StartsWith(after[0], Indent)
    ensures ScanAsWritten(before + [ParamHeading, ParamUnderline, param] + descr + after, true) == Conforms
  {
    var prefix := before + [ParamHeading, ParamUnderline, param] + descr;
    ParameterPartLayout(before, param, descr, after);
    ParameterPartConforms(prefix + after, |before|, |prefix|, true);
  }

  /**
   * The scan as the source runs it, with its two loops, and with the
   * unpacking failure reported as a format mismatch.
   */
  method ScanParameterLines(lines: seq<string>, isClass: bool) returns (outcome: ScanOutcome)
    ensures outcome == ScanParameterSection(lines, isClass)
  {
    var n := |lines|;
    var i := 0;
    while i < n && Strip(lines[i]) != ParamHeading
      invariant 0 <= i <= n
      invariant FindStripped(lines, i, ParamHeading) == FindStripped(lines, 0, ParamHeading)
    {
      i := i + 1;
    }
    if i == n {
      return Mismatch(0, NoParameters);
    }
    if i + 1 >= n || Strip(lines[i + 1]) != ParamUnderline {
      return Mismatch(i + 1, NoParametersUnderline);
    }
    i := i + 2;
    assert ScanAsWritten(lines, isClass) == Scan(lines, i, ParameterLine, isClass);
    outcome := ScanParameterPart(lines, i, isClass);
  }

  /** The parameter part of `ScanParameterLines`, from the `name : type` line on. */
  method ScanParameterPart(lines: seq<string>, i0: nat, isClass: bool) returns (outcome: ScanOutcome)
    requires i0 <= |lines|
    ensures outcome == Corrected(Scan(lines, i0, ParameterLine, isClass))
  {
    var n := |lines|;
    var i := i0;
    if i >= n || !Contains(lines[i], Separator) {
      return Mismatch(i, BadParameterFormat);
    }
    var t := Strip(lines[i]);
    var at := Find(t, Separator);
    if at == -1 {
      // as written, unpacking the one-element split raises ValueError here
      return Mismatch(i, BadParameterFormat);
    }
    var name, type_ := t[..at], t[at + 3..];
    if name == [] || type_ == [] {
      return Mismatch(i, BadParameterFormat);
    }
    i := i + 1;
    if i >= n || !StartsWith(lines[i], Indent) {
      return Mismatch(i, BadParameterIndent);
    }
    while i < n && StartsWith(lines[i], Indent)
      invariant i0 + 1 <= i <= n
      invariant SkipIndented(lines, i) == SkipIndented(lines, i0 + 1)
    {
      i := i + 1;
    }
    if isClass {
      return Conforms;
    }
    assert Scan(lines, i0, ParameterLine, isClass) == Scan(lines, i, ReturnsPart, false);
    outcome := ScanReturnsPart(lines, i);
  }

  /** The Returns part of `ScanParameterLines`, from the line after the description on. */
  method ScanReturnsPart(lines: seq<string>, i0: nat) returns (outcome: ScanOutcome)
    requires i0 <= |lines|
    ensures outcome == Scan(lines, i0, ReturnsPart, false)
  {
    var n := |lines|;
    var i := i0;
    if i < n && Strip(lines[i]) != "" {
      return Mismatch(i, NoBlankLine);
    }
    i := i + 1;
    if i >= n || Strip(lines[i]) != ReturnsHeading {
      return Mismatch(i, NoReturns);
    }
    if i + 1 >= n || Strip(lines[i + 1]) != ReturnsUnderline {
      return Mismatch(i + 1, NoReturnsUnderline);
    }
    i := i + 2;
    if i >= n || Strip(lines[i]) == "" {
      return Mismatch(i, NoReturnType);
    }
    i := i + 1;
    if i >= n || !StartsWith(lines[i], Indent) {
      return Mismatch(i, BadReturnIndent);
    }
    return Conforms;
  }

  /** The first `__init__` defined (not async) directly in a class body. */
  function FindInit(body: seq<Node>): (r: Option<Node>)
    ensures r.Some? ==> r.value in body && r.value.kind.FunctionDef? && r.value.name == "__init__"
    ensures r.None? <==> forall k :: 0 <= k < |body| ==> !(body[k].kind.FunctionDef? && body[k].name == "__init__")
    decreases |body|
  {
    if body == [] then None
    else if body[0].kind.FunctionDef? && body[0].name == "__init__" then Some(body[0])
    else FindInit(body[1..])
  }

  /**
   * Whether the layout is checked at all: only for the function, method
   * and class node types; a class needs an `__init__` with a parameter
   * besides `self`; a function needs a parameter, or two when the first is
   * `self` or `cls`.
   */
  function ParameterRuleApplies(info: DocstringInfo): (r: bool)
    ensures info.nodeType in {ModuleOwner, UnknownOwner} ==> !r
    ensures info.nodeType == ClassOwner ==>
              (r <==> FindInit(info.node.body).Some? && |FindInit(info.node.body).value.args| > 1)
    ensures info.nodeType in {FunctionOwner, AsyncFunctionOwner} ==>
              (r <==> if |info.node.args| > 0 && info.node.args[0] in {"self", "cls"} then |info.node.args| >= 2
                      else |info.node.args| >= 1)
    ensures info.nodeType in {MethodOwner, AsyncMethodOwner} ==> (r <==> |info.node.args| >= 1)
  {
    var validNodes := {FunctionOwner, AsyncFunctionOwner, MethodOwner, AsyncMethodOwner, ClassOwner};
    if info.nodeType !in validNodes then false
    else if info.nodeType == ClassOwner then
      match FindInit(info.node.body)
      case None => false
      case Some(init) => |init.args| > 1
    else
      var isMethod := info.nodeType in {FunctionOwner, AsyncFunctionOwner} && |info.node.args| > 0
                      && info.node.args[0] in {"self", "cls"};
      var minParams := if isMethod then 2 else 1;
      |info.node.args| >= minParams
  }

  /**
   * `ParameterReturnDefinitionValidator.validate_docstring`: at most one
   * RQ206, at the docstring's first line plus the offset of the first
   * mismatch.
   */
  function CheckParameters(info: DocstringInfo, path: Path): (r: seq<Violation>)
    ensures |r| <= 1
    ensures !ParameterRuleApplies(info) ==> r == []
    ensures forall k :: 0 <= k < |r| ==>
              && r[k].path == path && r[k].column == 0 && r[k].code == "RQ206" && r[k].tool == "rigorq"
              && info.startLine <= r[k].line <= info.startLine + |info.rawLines| + 1
    ensures ParameterRuleApplies(info) ==>
              (r == [] <==> ScanParameterSection(Texts(info.rawLines), info.nodeType == ClassOwner).Conforms?)
  {
    if !ParameterRuleApplies(info) then []
    else OutcomeViolations(ScanParameterSection(Texts(info.rawLines), info.nodeType == ClassOwner), info.startLine, path)
  }

  /** The RQ206 violation a scan outcome gives, at the docstring's first line plus its offset. */
  function OutcomeViolations(outcome: ScanOutcome, startLine: int, path: Path): (r: seq<Violation>)
    ensures r == [] <==> !outcome.Mismatch?
    ensures r != [] ==> r == [Violation(path, startLine + outcome.offset, 0, "RQ206", ProblemMessage(outcome.problem), "rigorq")]
  {
    match outcome
    case Mismatch(offset, problem) => [Violation(path, startLine + offset, 0, "RQ206", ProblemMessage(problem), "rigorq")]
    case _ => []
  }

  /**
   * Against the rule as written: wherever the written scan does not raise,
   * the reported violations are the ones it gives; where it raises
   * ValueError, the one violation is the parameter-format problem at the
   * line that raised.
   */
  lemma ParametersAgainstAsWritten(info: DocstringInfo, path: Path)
    requires ParameterRuleApplies(info)
    ensures !ScanAsWritten(Texts(info.rawLines), info.nodeType == ClassOwner).UnpackError? ==>
              CheckParameters(info, path)
              == OutcomeViolations(ScanAsWritten(Texts(info.rawLines), info.nodeType == ClassOwner), info.startLine, path)
    ensures ScanAsWritten(Texts(info.rawLines), info.nodeType == ClassOwner).UnpackError? ==>
              CheckParameters(info, path)
              == [Violation(path, info.startLine + ScanAsWritten(Texts(info.rawLines), info.nodeType == ClassOwner).offset,
                            0, "RQ206", ProblemMessage(BadParameterFormat), "rigorq")]
  {
    CorrectedViolations(ScanAsWritten(Texts(info.rawLines), info.nodeType == ClassOwner), info.startLine, path);
    ParametersFromCorrected(info, path);
  }

  /** The rule's report is the report of the corrected scan. */
  lemma ParametersFromCorrected(info: DocstringInfo, path: Path)
    requires ParameterRuleApplies(info)
    ensures CheckParameters(info, path)
            == OutcomeViolations(Corrected(ScanAsWritten(Texts(info.rawLines), info.nodeType == ClassOwner)), info.startLine, path)
  {
  }

  /** The violations of a corrected outcome, read off the outcome before correction. */
  lemma CorrectedViolations(o: ScanOutcome, startLine: int, path: Path)
    ensures !o.UnpackError? ==> OutcomeViolations(Corrected(o), startLine, path) == OutcomeViolations(o, startLine, path)
    ensures o.UnpackError? ==>
              OutcomeViolations(Corrected(o), startLine, path)
              == [Violation(path, startLine + o.offset, 0, "RQ206", ProblemMessage(BadParameterFormat), "rigorq")]
  {
  }

  /** A docstring with no "Parameters" line gets RQ206 at its first line whenever the rule applies. */
  lemma MissingParametersAtFirstLine(info: DocstringInfo, path: Path)
    requires ParameterRuleApplies(info)
    requires forall k :: 0 <= k < |info.rawLines| ==> Strip(info.rawLines[k].1) != ParamHeading
    ensures CheckParameters(info, path)
            == [Violation(path, info.startLine, 0, "RQ206", ProblemMessage(NoParameters), "rigorq")]
  {
    var lines := Texts(info.rawLines);
    assert forall k :: 0 <= k < |lines| ==> Strip(lines[k]) != ParamHeading;
    SectionMissingHeading(lines, info.nodeType == ClassOwner);
  }

  /** `ParameterReturnDefinitionValidator.validate_docstring` as the source runs it. */
  method ValidateParameters(info: DocstringInfo, path: Path) returns (violations: seq<Violation>)
    ensures violations == CheckParameters(info, path)
  {
    violations := [];
    if !ParameterRuleApplies(info) {
      return;
    }
    var lines := Texts(info.rawLines);
    var outcome := ScanParameterLines(lines, info.nodeType == ClassOwner);
    violations := OutcomeViolations(outcome, info.startLine, path);
  }

  // ---------------------------------------------------------------------
  // A rule's two entry points
  // ---------------------------------------------------------------------

  /** `validate_line`: only the length rule looks at single lines. */
  function ValidateLine(v: Validator, lineNum: int, raw: string, info: DocstringInfo, path: Path): (r: Option<Violation>)
    ensures !v.MaxLineLength? ==> r.None?
    ensures r.Some? ==> r.value.code == Code(v) && r.value.line == lineNum
    ensures r.Some? ==> r.value.path == path && r.value.tool == "rigorq"
  {
    match v
    case MaxLineLength(m) => CheckLineLength(m, lineNum, raw, path)
    case _ => None
  }

  /** `validate_docstring`: the length rule has none. */
  function ValidateDocstring(v: Validator, info: DocstringInfo, path: Path): (r: seq<Violation>)
    ensures v.MaxLineLength? ==> r == []
    ensures |r| <= 1
    ensures forall k :: 0 <= k < |r| ==>
              r[k].path == path && r[k].tool == "rigorq" && r[k].code in {Code(v), "RQ203"}
  {
    match v
    case MaxLineLength(_) => []
    case FirstLineSummary(requirePeriod) => CheckSummary(requirePeriod, info, path)
    case ParameterReturn => CheckParameters(info, path)
  }

  /** `validate_docstring` run through the methods that mirror the source's loops. */
  method RunValidateDocstring(v: Validator, info: DocstringInfo, path: Path) returns (violations: seq<Violation>)
    ensures violations == ValidateDocstring(v, info, path)
  {
    match v {
      case MaxLineLength(_) =>
        violations := [];
      case FirstLineSummary(requirePeriod) =>
        violations := ValidateSummary(requirePeriod, info, path);
      case ParameterReturn =>
        violations := ValidateParameters(info, path);
    }
  }
}
