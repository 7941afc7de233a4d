/**
 * The Ruff integration layer (rigorq/checks/style.py): the violation record
 * shared by every check, the Ruff command line, and the reading of Ruff's
 * concise output. Running Ruff itself is not part of this model.
 */
module Style {
  import opened Wrappers
  import opened PyStr

  /** A filesystem path, held as the text `str(path)` gives for it. */
  type Path = string

  /** `base / rel` for pathlib paths: an absolute `rel` replaces the base. */
  function JoinPath(base: Path, rel: Path): (r: Path)
    ensures StartsWith(rel, "/") ==> r == rel
    ensures !StartsWith(rel, "/") ==> EndsWith(r, rel) && StartsWith(r, base)
  {
    if StartsWith(rel, "/") then rel else base + "/" + rel
  }

  /** One finding of any check: an immutable record, produced by Ruff unless tagged otherwise. */
  datatype Violation = Violation(
    path: Path,
    line: int,
    column: int,
    code: string,
    message: string,
    tool: string := "ruff")

  // ---------------------------------------------------------------------
  // The Ruff command line
  // ---------------------------------------------------------------------

  /** The five fixed options, the line length being the fourth. */
  function RuffOptions(lineLength: int): (r: seq<string>)
    ensures |r| == 5 && "--fix" !in r
  {
    ["--output-format=concise",
     "--extend-select=E225,E226,E227,E228,N,D",
     "--ignore=D203,D212",
     "--line-length=" + IntToString(lineLength),
     "--target-version=py38"]
  }

  /**
   * `_build_ruff_cmd`: `ruff check`, then `--fix` when asked, the fixed
   * options, and the files last in the order given.
   */
  method BuildRuffCmd(files: seq<Path>, fix: bool := false, lineLength: int := 79)
    returns (cmd: seq<string>)
    ensures |cmd| == 7 + (if fix then 1 else 0) + |files|
    ensures cmd[0] == "ruff" && cmd[1] == "check"
    ensures cmd[2] == "--fix" <==> fix
    ensures "--fix" in cmd[..|cmd| - |files|] <==> fix
    ensures cmd[|cmd| - |files| - 5..|cmd| - |files|] == RuffOptions(lineLength)
    ensures cmd[|cmd| - |files| - 2] == "--line-length=" + IntToString(lineLength)
    ensures cmd[|cmd| - |files|..] == files
  {
    cmd := ["ruff", "check"];
    if fix {
      cmd := cmd + ["--fix"];
    }
    cmd := cmd + RuffOptions(lineLength);
    ghost var head := cmd;
    assert "--fix" in head <==> fix;
    for i := 0 to |files|
      invariant cmd == head + files[..i]
    {
      cmd := cmd + [files[i]];
    }
    assert files[..|files|] == files;
    assert cmd[..|cmd| - |files|] == head;
  }

  // ---------------------------------------------------------------------
  // Ruff's concise output
  // ---------------------------------------------------------------------

  /** `int()` raised ValueError on this field text. */
  datatype ParseError = IntValueError(text: string)

  /** What one output line contributes: nothing, a violation, or an exception. */
  datatype LineOutcome = Skipped | Parsed(v: Violation) | Raised(e: ParseError)

  /**
   * The fields of a line that has at least four: fields 2 and 3 go through
   * `int()`, field 4 stripped is the code, fields 5.. re-joined with ':' and
   * stripped are the message ("" when there are exactly four), and the path
   * is field 1 under the base path.
   */
  function ReadFields(parts: seq<string>, basePath: Path): (r: LineOutcome)
    requires |parts| >= 4
    ensures !r.Skipped?
    ensures r.Raised? <==> ParseInt(parts[1]).None? || ParseInt(parts[2]).None?
    ensures r.Parsed? ==>
              && ParseInt(parts[1]) == Some(r.v.line)
              && ParseInt(parts[2]) == Some(r.v.column)
              && Strip(r.v.code) == r.v.code
              && Strip(r.v.message) == r.v.message
              && (|parts| == 4 ==> r.v.message == "")
              && r.v.path == JoinPath(basePath, parts[0])
              && r.v.tool == "ruff"
  {
    match ParseInt(parts[1])
    case None => Raised(IntValueError(parts[1]))
    case Some(lineNum) =>
      match ParseInt(parts[2])
      case None => Raised(IntValueError(parts[2]))
      case Some(column) =>
        var code := Strip(parts[3]);
        var message := if |parts| > 4 then Strip(Join(':', parts[4..])) else "";
        StripIdempotent(parts[3]);
        StripIdempotent(Join(':', parts[4..]));
        Parsed(Violation(JoinPath(basePath, parts[0]), lineNum, column, code, message, "ruff"))
  }

  /**
   * One line of `_parse_ruff_output`: split on ':'; a line of fewer than
   * four fields is skipped, any other is read field by field.
   */
  function ParseRuffLine(line: string, basePath: Path): (r: LineOutcome)
    ensures r.Skipped? <==> |Split(line, ':')| < 4
  {
    var parts := Split(line, ':');
    if |parts| < 4 then Skipped else ReadFields(parts, basePath)
  }

  /** `f` applied to each element of `xs`, in order. */
  function Map<A, B>(f: A -> B, xs: seq<A>): (r: seq<B>)
    ensures |r| == |xs|
    decreases |xs|
  {
    if xs == [] then [] else [f(xs[0])] + Map(f, xs[1..])
  }

  /** The k-th element of a map is `f` of the k-th element. */
  lemma {:induction false} MapAt<A, B>(f: A -> B, xs: seq<A>, k: int)
    requires 0 <= k < |xs|
    ensures Map(f, xs)[k] == f(xs[k])
    decreases k
  {
    if k > 0 {
      MapAt(f, xs[1..], k - 1);
    }
  }

  /** Reading one line against the base path. */
  function LineReader(basePath: Path): string -> LineOutcome {
    line => ParseRuffLine(line, basePath)
  }

  /** The outcome of each line, in order. */
  function Outcomes(lines: seq<string>, basePath: Path): (r: seq<LineOutcome>)
    ensures |r| == |lines|
  {
    Map(LineReader(basePath), lines)
  }

  /** The k-th outcome is the outcome of the k-th line. */
  lemma OutcomeAt(lines: seq<string>, basePath: Path, k: int)
    requires 0 <= k < |lines|
    ensures Outcomes(lines, basePath)[k] == ParseRuffLine(lines[k], basePath)
  {
    MapAt(LineReader(basePath), lines, k);
  }

  /**
   * The loop of `_parse_ruff_output` over the line outcomes, front to back:
   * skipped lines add nothing, parsed lines add their violation, and the
   * first exception ends the loop.
   */
  function Collect(outcomes: seq<LineOutcome>): (r: Result<seq<Violation>, ParseError>)
    ensures r.Ok? ==> |r.value| <= |outcomes|
    decreases |outcomes|
  {
    if outcomes == [] then Ok([])
    else Continue(outcomes[0], Collect(outcomes[1..]))
  }

  /** Reading from position i is reading outcome i, then the ones after it. */
  lemma CollectFrom(outcomes: seq<LineOutcome>, i: int)
    requires 0 <= i < |outcomes|
    ensures Collect(outcomes[i..]) == Continue(outcomes[i], Collect(outcomes[i + 1..]))
  {
    assert outcomes[i..][0] == outcomes[i] && outcomes[i..][1..] == outcomes[i + 1..];
  }

  /** `_parse_ruff_output` on a list of lines. */
  function ParseLines(lines: seq<string>, basePath: Path): (r: Result<seq<Violation>, ParseError>)
    ensures r.Ok? ==> |r.value| <= |lines|
  {
    Collect(Outcomes(lines, basePath))
  }

  /** What one line's outcome makes of the outcome of reading the lines after it. */
  function Continue(outcome: LineOutcome, rest: Result<seq<Violation>, ParseError>): (r: Result<seq<Violation>, ParseError>)
    ensures r.Ok? ==> rest.Ok? && |r.value| <= |rest.value| + 1
  {
    match outcome
    case Raised(e) => Err(e)
    case Skipped => rest
    case Parsed(v) => Prepend([v], rest)
  }

  /** The lines Ruff's output is read as: the stripped output, split into lines. */
  function OutputLines(output: string): seq<string> {
    SplitLines(Strip(output))
  }

  /** Put already-read violations in front of the outcome of reading the rest. */
  function Prepend(vs: seq<Violation>, rest: Result<seq<Violation>, ParseError>): (r: Result<seq<Violation>, ParseError>)
    ensures r.Ok? <==> rest.Ok?
    ensures r.Ok? ==> r.value == vs + rest.value
  {
    match rest
    case Ok(ws) => Ok(vs + ws)
    case Err(e) => Err(e)
  }

  /** Prepending nothing changes nothing. */
  lemma PrependNothing(rest: Result<seq<Violation>, ParseError>)
    ensures Prepend([], rest) == rest
  {
    if rest.Ok? {
      assert [] + rest.value == rest.value;
    }
  }

  /** Prepending twice is prepending the concatenation. */
  lemma PrependTwice(vs: seq<Violation>, ws: seq<Violation>, rest: Result<seq<Violation>, ParseError>)
    ensures Prepend(vs, Prepend(ws, rest)) == Prepend(vs + ws, rest)
  {
    if rest.Ok? {
      assert vs + (ws + rest.value) == vs + ws + rest.value;
    }
  }

  /**
   * `_parse_ruff_output`: the violations of the output's lines in order, or
   * the ValueError the first malformed number raises.
   */
  method ParseRuffOutput(output: string, basePath: Path) returns (r: Result<seq<Violation>, ParseError>)
    ensures r == ParseLines(OutputLines(output), basePath)
    ensures IsBlank(output) ==> r == Ok([])
    ensures r.Ok? ==> |r.value| <= |OutputLines(output)|
  {
    var lines := OutputLines(output);
    StripEmptyIffBlank(output);
    ghost var outs := Outcomes(lines, basePath);
    var violations: seq<Violation> := [];
    var i := 0;
    assert outs[0..] == outs;
    PrependNothing(Collect(outs));
    while i < |lines|
      invariant 0 <= i <= |lines|
      invariant Prepend(violations, Collect(outs[i..])) == Collect(outs)
    {
      var outcome := ParseRuffLine(lines[i], basePath);
      OutcomeAt(lines, basePath, i);
      ghost var rest := Collect(outs[i + 1..]);
      CollectFrom(outs, i);
      match outcome {
        case Raised(e) =>
          return Err(e);
        case Skipped =>
        case Parsed(v) =>
          PrependTwice(violations, [v], rest);
          violations := violations + [v];
      }
      i := i + 1;
    }
    assert outs[i..] == [];
    assert violations + [] == violations;
    return Ok(violations);
  }

  // ---------------------------------------------------------------------
  // Properties of the reading
  // ---------------------------------------------------------------------

  /** The outcomes that are not skips, in order. */
  function Kept(outcomes: seq<LineOutcome>): (r: seq<LineOutcome>)
    ensures |r| <= |outcomes|
    ensures forall k :: 0 <= k < |r| ==> !r[k].Skipped? && r[k] in outcomes
    decreases |outcomes|
  {
    if outcomes == [] then []
    else (if outcomes[0].Skipped? then [] else [outcomes[0]]) + Kept(outcomes[1..])
  }

  /** The reading succeeds exactly when no line's outcome is an exception. */
  lemma {:induction false} CollectOkIff(outcomes: seq<LineOutcome>)
    ensures Collect(outcomes).Ok? <==> forall k :: 0 <= k < |outcomes| ==> !outcomes[k].Raised?
    decreases |outcomes|
  {
    if outcomes != [] {
      var tail := outcomes[1..];
      CollectOkIff(tail);
      assert forall k :: 1 <= k < |outcomes| ==> outcomes[k] == tail[k - 1];
    }
  }

  /** The first exception is the one the reading ends with. */
  lemma {:induction false} CollectFirstRaised(outcomes: seq<LineOutcome>, k: int)
    requires 0 <= k < |outcomes| && outcomes[k].Raised?
    requires forall j :: 0 <= j < k ==> !outcomes[j].Raised?
    ensures Collect(outcomes) == Err(outcomes[k].e)
    decreases k
  {
    if k > 0 {
      var tail := outcomes[1..];
      CollectFirstRaised(tail, k - 1);
      match outcomes[0]
      case Skipped =>
      case Parsed(v) =>
    }
  }

  /** A successful reading holds one violation per kept outcome, in order. */
  lemma {:induction false} CollectKept(outcomes: seq<LineOutcome>)
    requires Collect(outcomes).Ok?
    ensures |Collect(outcomes).value| == |Kept(outcomes)|
    ensures forall k :: 0 <= k < |Kept(outcomes)| ==> Kept(outcomes)[k] == Parsed(Collect(outcomes).value[k])
    decreases |outcomes|
  {
    if outcomes != [] {
      var tail := outcomes[1..];
      CollectKept(tail);
      var kept := Kept(tail);
      var vs := Collect(tail).value;
      match outcomes[0]
      case Skipped =>
        assert Kept(outcomes) == kept;
      case Parsed(v) =>
        assert Kept(outcomes) == [Parsed(v)] + kept;
        assert Collect(outcomes).value == [v] + vs;
    }
  }

  /** The output lines that have at least four ':'-separated fields, in order. */
  function AcceptedLines(lines: seq<string>): (r: seq<string>)
    ensures |r| <= |lines|
    ensures forall k :: 0 <= k < |r| ==> |Split(r[k], ':')| >= 4
    ensures forall l :: l in lines && |Split(l, ':')| >= 4 <==> l in r
    decreases |lines|
  {
    if lines == [] then []
    else (if |Split(lines[0], ':')| >= 4 then [lines[0]] else []) + AcceptedLines(lines[1..])
  }

  /** The lines that are not skipped are exactly the accepted ones. */
  lemma {:induction false} AcceptedOutcomes(lines: seq<string>, basePath: Path)
    ensures Outcomes(AcceptedLines(lines), basePath) == Kept(Outcomes(lines, basePath))
    decreases |lines|
  {
    if lines != [] {
      var rest := lines[1..];
      var acc := AcceptedLines(rest);
      AcceptedOutcomes(rest, basePath);
      var outs := Outcomes(lines, basePath);
      assert outs[0] == ParseRuffLine(lines[0], basePath) && outs[1..] == Outcomes(rest, basePath);
      if |Split(lines[0], ':')| >= 4 {
        var both := [lines[0]] + acc;
        assert AcceptedLines(lines) == both;
        assert both[0] == lines[0] && both[1..] == acc;
      } else {
        assert AcceptedLines(lines) == [] + acc == acc;
      }
    }
  }

  /** Reading lines succeeds exactly when no line raises. */
  lemma ParseLinesOkIff(lines: seq<string>, basePath: Path)
    ensures ParseLines(lines, basePath).Ok? <==>
              forall k :: 0 <= k < |lines| ==> !ParseRuffLine(lines[k], basePath).Raised?
  {
    var outs := Outcomes(lines, basePath);
    CollectOkIff(outs);
    forall k | 0 <= k < |lines|
      ensures outs[k] == ParseRuffLine(lines[k], basePath)
    {
      OutcomeAt(lines, basePath, k);
    }
  }

  /**
   * When no exception is raised, the k-th violation is read from the k-th
   * accepted line: one violation per accepted line, in input order.
   */
  lemma ParsedFromAcceptedLines(lines: seq<string>, basePath: Path)
    requires ParseLines(lines, basePath).Ok?
    ensures |ParseLines(lines, basePath).value| == |AcceptedLines(lines)|
    ensures forall k :: 0 <= k < |AcceptedLines(lines)| ==>
              ParseRuffLine(AcceptedLines(lines)[k], basePath) == Parsed(ParseLines(lines, basePath).value[k])
  {
    var outs := Outcomes(lines, basePath);
    var acc := AcceptedLines(lines);
    CollectKept(outs);
    AcceptedOutcomes(lines, basePath);
    forall k | 0 <= k < |acc|
      ensures ParseRuffLine(acc[k], basePath) == Parsed(ParseLines(lines, basePath).value[k])
    {
      OutcomeAt(acc, basePath, k);
    }
  }

  /**
   * A line of four or more fields whose second field is not a number ends
   * the reading with that field's ValueError, unless an earlier line raised.
   */
  lemma NonNumericLineRaises(lines: seq<string>, basePath: Path, k: int)
    requires 0 <= k < |lines|
    requires |Split(lines[k], ':')| >= 4 && ParseInt(Split(lines[k], ':')[1]).None?
    requires forall j :: 0 <= j < k ==> !ParseRuffLine(lines[j], basePath).Raised?
    ensures ParseLines(lines, basePath) == Err(IntValueError(Split(lines[k], ':')[1]))
  {
    var outs := Outcomes(lines, basePath);
    OutcomeAt(lines, basePath, k);
    assert outs[k] == Raised(IntValueError(Split(lines[k], ':')[1]));
    forall j | 0 <= j < k
      ensures !outs[j].Raised?
    {
      OutcomeAt(lines, basePath, j);
    }
    CollectFirstRaised(outs, k);
  }

  lemma NoColonInNumber(i: int)
    ensures ':' !in IntToString(i)
  {
    var n: nat := if i < 0 then -i else i;
    var d := NatToString(n);
    assert forall j :: 0 <= j < |d| ==> d[j] != ':';
    if i < 0 {
      assert IntToString(i) == "-" + d;
    }
  }

  /** A ':'-free field followed by ':' comes off the front of the split. */
  lemma SplitColonCons(a: string, rest: string)
    requires ':' !in a
    ensures Split(a + ":" + rest, ':') == [a] + Split(rest, ':')
  {
    assert a + ":" + rest == a + [':'] + rest;
    SplitCons(a, ':', rest);
  }

  /** Three ':'-free fields, each followed by ':', come off the front of the split. */
  lemma SplitThreeFields(a: string, b: string, c: string, rest: string)
    requires ':' !in a && ':' !in b && ':' !in c
    ensures Split(a + ":" + b + ":" + c + ":" + rest, ':') == [a, b, c] + Split(rest, ':')
  {
    var r3 := c + ":" + rest;
    var r2 := b + ":" + r3;
    SplitColonCons(c, rest);
    SplitColonCons(b, r3);
    SplitColonCons(a, r2);
    ColonRegroup(a, b, c, rest);
    ConsThree(a, b, c, Split(rest, ':'));
  }

  /** Three single elements in front of a sequence. */
  lemma ConsThree(a: string, b: string, c: string, sr: seq<string>)
    ensures [a] + ([b] + ([c] + sr)) == [a, b, c] + sr
  {
  }

  /** Regrouping three ':'-terminated fields and a rest to the right. */
  lemma ColonRegroup(a: string, b: string, c: string, rest: string)
    ensures a + ":" + b + ":" + c + ":" + rest == a + ":" + (b + ":" + (c + ":" + rest))
  {
    var lhs := a + ":" + b + ":" + c + ":" + rest;
    var rhs := a + ":" + (b + ":" + (c + ":" + rest));
    assert |lhs| == |rhs|;
    forall j | 0 <= j < |lhs|
      ensures lhs[j] == rhs[j]
    {
      if j <= |a| {
      } else if j <= |a| + 1 + |b| {
      } else if j <= |a| + |b| + 2 + |c| {
      }
    }
  }

  /** `path:line:col:rest` with no ':' in the path splits into the path, the two numbers and the parts of `rest`. */
  lemma SplitPositionPrefix(p: string, line: int, col: int, rest: string)
    requires ':' !in p
    ensures Split(p + ":" + IntToString(line) + ":" + IntToString(col) + ":" + rest, ':')
            == [p, IntToString(line), IntToString(col)] + Split(rest, ':')
  {
    NoColonInNumber(line);
    NoColonInNumber(col);
    SplitThreeFields(p, IntToString(line), IntToString(col), rest);
  }

  /** A line whose fields are known is read from those fields. */
  lemma ReadLineFields(line: string, parts: seq<string>, basePath: Path)
    requires Split(line, ':') == parts && |parts| >= 4
    ensures ParseRuffLine(line, basePath) == ReadFields(parts, basePath)
  {
  }

  /** The fields `path`, `str(line)`, `str(col)`, `code`, then the parts of `msg`, are read back. */
  lemma ReadPrintedFields(p: string, line: int, col: int, code: string, msg: string, basePath: Path)
    ensures ReadFields([p, IntToString(line), IntToString(col), code] + Split(msg, ':'), basePath)
            == Parsed(Violation(JoinPath(basePath, p), line, col, Strip(code), Strip(msg), "ruff"))
  {
    var parts := [p, IntToString(line), IntToString(col), code] + Split(msg, ':');
    assert ParseInt(parts[1]) == Some(line) by {
      assert parts[1] == IntToString(line);
      IntRoundTrip(line);
    }
    assert ParseInt(parts[2]) == Some(col) by {
      assert parts[2] == IntToString(col);
      IntRoundTrip(col);
    }
    assert Join(':', parts[4..]) == msg by {
      assert parts[4..] == Split(msg, ':');
      JoinSplit(msg, ':');
    }
    ReadNumberedFields(parts, line, col, basePath);
  }

  /**
   * The colon-separated layout `path:line:col:code:message` is read back
   * field by field: the message may itself hold colons, and both the code
   * and the message come back stripped.
   */
  lemma ReadColonFields(p: string, line: int, col: int, code: string, msg: string, basePath: Path)
    requires ':' !in p && ':' !in code
    ensures ParseRuffLine(p + ":" + IntToString(line) + ":" + IntToString(col) + ":" + code + ":" + msg, basePath)
            == Parsed(Violation(JoinPath(basePath, p), line, col, Strip(code), Strip(msg), "ruff"))
  {
    var position := p + ":" + IntToString(line) + ":" + IntToString(col);
    var s := position + ":" + code + ":" + msg;
    var parts := [p, IntToString(line), IntToString(col), code] + Split(msg, ':');
    assert Split(s, ':') == parts by {
      var rest := code + ":" + msg;
      assert s == position + ":" + rest;
      SplitPositionPrefix(p, line, col, rest);
      SplitColonCons(code, msg);
      assert [p, IntToString(line), IntToString(col)] + ([code] + Split(msg, ':')) == parts;
    }
    ReadLineFields(s, parts, basePath);
    ReadPrintedFields(p, line, col, code, msg, basePath);
  }

  /**
   * The concise layout `path:line:col: CODE message` that the parser's own
   * documentation shows has only four fields, so the code field holds the
   * code and the message together and the message is empty.
   */
  lemma ConciseLayoutPutsMessageInCode(p: string, line: int, col: int, code: string, msg: string, basePath: Path)
    requires ':' !in p && ':' !in code && ':' !in msg
    ensures ParseRuffLine(p + ":" + IntToString(line) + ":" + IntToString(col) + ": " + code + " " + msg, basePath)
            == Parsed(Violation(JoinPath(basePath, p), line, col, Strip(" " + code + " " + msg), "", "ruff"))
  {
    var tail := " " + code + " " + msg;
    assert ':' !in tail by {
      assert forall j :: 0 <= j < |tail| ==> tail[j] == ' ' || tail[j] in code || tail[j] in msg;
    }
    var s := p + ":" + IntToString(line) + ":" + IntToString(col) + ": " + code + " " + msg;
    var parts := [p, IntToString(line), IntToString(col), tail];
    assert Split(s, ':') == parts by {
      assert s == p + ":" + IntToString(line) + ":" + IntToString(col) + ":" + tail;
      SplitPositionPrefix(p, line, col, tail);
      SplitNoSep(tail, ':');
    }
    ReadLineFields(s, parts, basePath);
    ReadFourFields(p, line, col, tail, basePath);
  }

  /** Exactly four fields: the fourth stripped is the code, and the message is empty. */
  lemma ReadFourFields(p: string, line: int, col: int, last: string, basePath: Path)
    ensures ReadFields([p, IntToString(line), IntToString(col), last], basePath)
            == Parsed(Violation(JoinPath(basePath, p), line, col, Strip(last), "", "ruff"))
  {
    var parts := [p, IntToString(line), IntToString(col), last];
    assert ParseInt(parts[1]) == Some(line) by { IntRoundTrip(line); }
    assert ParseInt(parts[2]) == Some(col) by { IntRoundTrip(col); }
    ReadNumberedFields(parts, line, col, basePath);
  }

  /** Fields whose second and third are the numbers `line` and `col`. */
  lemma ReadNumberedFields(parts: seq<string>, line: int, col: int, basePath: Path)
    requires |parts| >= 4 && ParseInt(parts[1]) == Some(line) && ParseInt(parts[2]) == Some(col)
    ensures ReadFields(parts, basePath)
            == Parsed(Violation(JoinPath(basePath, parts[0]), line, col, Strip(parts[3]),
                                if |parts| > 4 then Strip(Join(':', parts[4..])) else "", "ruff"))
  {
  }
}
