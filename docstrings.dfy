/**
 * Docstring detection (rigorq/checks/docstrings.py): the syntax tree and
 * the token stream as input values, the test that decides whether a string
 * token is the docstring of a module, class or function, and the record
 * built for a docstring (its raw lines, its delimiter-free content and its
 * owner). Python's parser and tokenizer are not part of this model.
 */
module Docstrings {
  import opened Wrappers
  import opened PyStr

  // ---------------------------------------------------------------------
  // Inputs: syntax-tree nodes and tokens
  // ---------------------------------------------------------------------

  /**
   * The node kinds the checker distinguishes. An expression statement
   * records whether its value is a `str` constant.
   */
  datatype NodeKind =
    | ModuleNode
    | ClassDef
    | FunctionDef
    | AsyncFunctionDef
    | ExprStmt(holdsStr: bool)
    | OtherNode

  /**
   * A syntax-tree node: its kind, its name (for classes and functions),
   * its first and last line, its child nodes in `ast.iter_child_nodes`
   * order (the statement body for modules, classes and functions), and
   * the names of its positional parameters (`node.args.args`).
   */
  datatype Node = Node(
    kind: NodeKind,
    name: string,
    lineno: int,
    endLineno: int,
    body: seq<Node>,
    args: seq<string>)

  /** A token: whether it is a STRING token, its start and end (line, column), and its text. */
  datatype Token = Token(
    isString: bool,
    startLine: int,
    startCol: int,
    endLine: int,
    endCol: int,
    text: string)

  /** The node types the validators know by name. */
  datatype OwnerKind =
    | ModuleOwner
    | ClassOwner
    | FunctionOwner
    | AsyncFunctionOwner
    | MethodOwner
    | AsyncMethodOwner
    | UnknownOwner

  /** A docstring line: its source line number and its raw text. */
  type RawLine = (int, string)

  /** Everything the validators are told about one docstring. */
  datatype DocstringInfo = DocstringInfo(
    node: Node,
    token: Token,
    rawLines: seq<RawLine>,
    content: string,
    startLine: int,
    endLine: int,
    indentLevel: int,
    nodeType: OwnerKind,
    nodeName: string)

  const TripleDouble: string := "\"\"\""
  const TripleSingle: string := "'''"

  // ---------------------------------------------------------------------
  // Which string token is a docstring
  // ---------------------------------------------------------------------

  /** Modules, classes, functions and async functions are the only owners of docstrings. */
  predicate CanOwnDocstring(k: NodeKind) {
    k.ModuleNode? || k.ClassDef? || k.FunctionDef? || k.AsyncFunctionDef?
  }

  function Abs(x: int): nat {
    if x < 0 then -x else x
  }

  function Max(a: int, b: int): int {
    if a < b then b else a
  }

  function Min(a: int, b: int): int {
    if a < b then a else b
  }

  /**
   * `_is_docstring_candidate`: the node can own a docstring, its first
   * statement is a string expression, and the token lies near the node
   * (on line 3 or before for a module, at most two lines from the node's
   * first line otherwise). `nextStmt` is accepted and never consulted.
   */
  function IsDocstringCandidate(node: Node, token: Token, nextStmt: Option<Node>): (r: bool)
    ensures r ==> CanOwnDocstring(node.kind)
    ensures r ==> node.body != [] && node.body[0].kind == ExprStmt(true)
    ensures r && node.kind.ModuleNode? ==> token.startLine <= 3
    ensures r && !node.kind.ModuleNode? ==> node.lineno - 2 <= token.startLine <= node.lineno + 2
    ensures && CanOwnDocstring(node.kind)
            && node.body != [] && node.body[0].kind == ExprStmt(true)
            && (if node.kind.ModuleNode? then token.startLine <= 3
                else node.lineno - 2 <= token.startLine <= node.lineno + 2)
            ==> r
  {
    if !CanOwnDocstring(node.kind) then false
    else if node.body == [] || !node.body[0].kind.ExprStmt? then false
    else if !node.body[0].kind.holdsStr then false
    else
      // a module has no line number of its own: it starts on line 1
      var nodeStartLine := if node.kind.ModuleNode? then 1 else node.lineno;
      if node.kind.ModuleNode? then token.startLine <= Max(3, nodeStartLine + 2)
      else Abs(token.startLine - nodeStartLine) <= 2
  }

  /**
   * The test looks at where the token starts, not at which statement it
   * belongs to: a later string in the body of a function that has a
   * docstring passes it as well when it starts within two lines of the
   * `def`.
   */
  lemma {:induction false} NearbyStringPasses(node: Node, doc: Token, other: Token)
    requires IsDocstringCandidate(node, doc, None) && !node.kind.ModuleNode?
    requires other.startLine == node.lineno + 2
    ensures IsDocstringCandidate(node, other, None)
  {
    assert node.lineno - 2 <= other.startLine <= node.lineno + 2;
  }

  // ---------------------------------------------------------------------
  // The raw lines of a docstring
  // ---------------------------------------------------------------------

  /**
   * What the extraction needs of a token: it starts on line 1 or later,
   * and a single-line token starts on a line the source has (the tokens
   * and the source lines come from the same text).
   */
  predicate WellPlaced(token: Token, source: seq<string>) {
    1 <= token.startLine && (token.startLine == token.endLine ==> token.startLine <= |source|)
  }

  /** How many source lines a multi-line token covers: its lines up to the end of the source. */
  function CoveredCount(token: Token, source: seq<string>): nat {
    var last := Min(token.endLine, |source|);
    if last >= token.startLine then last - token.startLine + 1 else 0
  }

  /**
   * The raw lines of a token, as `_extract_docstring_lines` collects them.
   * A multi-line token gives its source lines verbatim, numbered from its
   * first line and cut at the end of the source. A single-line token gives
   * the text before its first occurrence in its line followed by each line
   * of the token text, or the whole line when the text does not occur.
   */
  function DocstringLines(token: Token, source: seq<string>): (r: seq<RawLine>)
    requires WellPlaced(token, source)
    ensures token.startLine != token.endLine ==>
              && |r| == CoveredCount(token, source)
              && forall j :: 0 <= j < |r| ==>
                   && r[j].0 == token.startLine + j
                   && token.startLine <= r[j].0 <= token.endLine
                   && r[j].1 == source[r[j].0 - 1]
    ensures token.startLine == token.endLine ==>
              var raw := source[token.startLine - 1];
              var at := Find(raw, token.text);
              && (at == -1 ==> r == [(token.startLine, raw)])
              && (at != -1 ==>
                    && |r| == |SplitLines(token.text)|
                    && forall j :: 0 <= j < |r| ==>
                         && r[j].0 == token.startLine + j
                         && r[j].1 == raw[..at] + SplitLines(token.text)[j]
                         && StartsWith(r[j].1, raw[..at]))
  {
    if token.startLine == token.endLine then
      var raw := source[token.startLine - 1];
      var at := Find(raw, token.text);
      if at != -1 then
        var parts := SplitLines(token.text);
        seq(|parts|, j requires 0 <= j < |parts| => (token.startLine + j, raw[..at] + parts[j]))
      else
        [(token.startLine, raw)]
    else
      var n := CoveredCount(token, source);
      seq(n, j requires 0 <= j < n => (token.startLine + j, source[token.startLine - 1 + j]))
  }

  /**
   * `_extract_docstring_lines`: the loops that append the raw lines one
   * by one.
   */
  method ExtractDocstringLines(token: Token, source: seq<string>) returns (lines: seq<RawLine>)
    requires WellPlaced(token, source)
    ensures lines == DocstringLines(token, source)
  {
    if token.startLine == token.endLine {
      var raw := source[token.startLine - 1];
      var at := Find(raw, token.text);
      if at != -1 {
        lines := AppendParts(token.startLine, raw[..at], SplitLines(token.text));
      } else {
        lines := [(token.startLine, raw)];
      }
    } else {
      lines := AppendSourceLines(token.startLine, token.endLine, source);
    }
  }

  /** The single-line loop: each line of the token text behind the same prefix. */
  method AppendParts(first: int, prefix: string, parts: seq<string>) returns (lines: seq<RawLine>)
    ensures lines == seq(|parts|, j requires 0 <= j < |parts| => (first + j, prefix + parts[j]))
  {
    lines := [];
    for i := 0 to |parts|
      invariant |lines| == i
      invariant forall j :: 0 <= j < i ==> lines[j] == (first + j, prefix + parts[j])
    {
      lines := lines + [(first + i, prefix + parts[i])];
    }
  }

  /** The multi-line loop: source lines `startLine`..`endLine` that exist, numbered from 1. */
  method AppendSourceLines(startLine: int, endLine: int, source: seq<string>) returns (lines: seq<RawLine>)
    requires 1 <= startLine
    ensures var n := CoveredCount(Token(true, startLine, 0, endLine, 0, ""), source);
            lines == seq(n, j requires 0 <= j < n => (startLine + j, source[startLine - 1 + j]))
  {
    lines := [];
    var i := startLine - 1;
    while i < endLine
      invariant startLine - 1 <= i
      invariant i <= endLine || i == startLine - 1
      invariant |lines| == Min(i, |source|) - Min(startLine - 1, |source|)
      invariant forall j :: 0 <= j < |lines| ==> lines[j] == (startLine + j, source[startLine - 1 + j])
      decreases endLine - i
    {
      if i < |source| {
        lines := lines + [(i + 1, source[i])];
      }
      i := i + 1;
    }
  }

  /**
   * A single-line token whose text has no line break and occurs in its
   * line gives one raw line: that line cut just after the token.
   */
  lemma SingleLineIsLinePrefix(token: Token, source: seq<string>)
    requires WellPlaced(token, source) && token.startLine == token.endLine
    requires token.text != [] && forall j :: 0 <= j < |token.text| ==> !IsLineBreak(token.text[j])
    requires Contains(source[token.startLine - 1], token.text)
    ensures var raw := source[token.startLine - 1];
            exists k :: 0 <= k <= |raw| &&
              DocstringLines(token, source) == [(token.startLine, raw[..k])] && EndsWith(raw[..k], token.text)
  {
    var raw := source[token.startLine - 1];
    var at := Find(raw, token.text);
    var k := at + |token.text|;
    assert SplitLines(token.text) == [token.text];
    var lines := DocstringLines(token, source);
    assert lines == [(token.startLine, raw[..at] + token.text)];
    FoundPrefix(raw, token.text);
  }

  // ---------------------------------------------------------------------
  // Content, owner and the docstring record
  // ---------------------------------------------------------------------

  predicate HasOpeningDelimiter(s: string) {
    StartsWith(s, TripleDouble) || StartsWith(s, TripleSingle)
  }

  predicate HasClosingDelimiter(s: string) {
    EndsWith(s, TripleDouble) || EndsWith(s, TripleSingle)
  }

  /** A delimited text is at least as long as its delimiter. */
  lemma DelimiterLength(s: string)
    ensures HasOpeningDelimiter(s) ==> |s| >= 3
    ensures HasClosingDelimiter(s) ==> |s| >= 3
  {
    assert |TripleDouble| == 3 && |TripleSingle| == 3;
  }

  /**
   * `_get_docstring_content`: three characters come off the front when
   * the text opens with a triple quote, then three off the back when what
   * is left closes with one; nothing else changes.
   */
  function GetDocstringContent(text: string): (r: string)
    ensures var a := if HasOpeningDelimiter(text) then 3 else 0;
            && a + |r| <= |text|
            && r == text[a..a + |r|]
            && (if HasClosingDelimiter(text[a..]) then |r| == |text| - a - 3 else |r| == |text| - a)
  {
    var afterOpen := if HasOpeningDelimiter(text) then text[3..] else text;
    if HasClosingDelimiter(afterOpen) then afterOpen[..|afterOpen| - 3] else afterOpen
  }

  /** Text between two equal triple-quote delimiters is given back unchanged. */
  lemma ContentOfDelimited(q: string, c: string)
    requires q == TripleDouble || q == TripleSingle
    ensures GetDocstringContent(q + c + q) == c
  {
    var s := q + c + q;
    assert s[..3] == q;
    assert s[3..] == c + q;
    assert (c + q)[|c + q| - 3..] == q;
    assert (c + q)[..|c + q| - 3] == c;
  }

  /** Text that neither opens nor closes with a triple quote is its own content. */
  lemma ContentOfUndelimited(text: string)
    requires !HasOpeningDelimiter(text) && !HasClosingDelimiter(text)
    ensures GetDocstringContent(text) == text
  {
  }

  /**
   * `_get_node_info`: modules, classes and both kinds of function are told
   * apart, and every function is reported as `function`.
   */
  function GetNodeInfo(node: Node): (r: (OwnerKind, string))
    ensures r.0 == ModuleOwner <==> node.kind.ModuleNode?
    ensures r.0 == ClassOwner <==> node.kind.ClassDef?
    ensures r.0 == FunctionOwner <==> node.kind.FunctionDef? || node.kind.AsyncFunctionDef?
    ensures r.0 == UnknownOwner <==> !CanOwnDocstring(node.kind)
    ensures r.1 == (if node.kind.ModuleNode? then "<module>"
                    else if CanOwnDocstring(node.kind) then node.name
                    else "<unknown>")
  {
    match node.kind
    case ModuleNode => (ModuleOwner, "<module>")
    case ClassDef => (ClassOwner, node.name)
    case FunctionDef => (FunctionOwner, node.name)
    case AsyncFunctionDef => (FunctionOwner, node.name)
    case _ => (UnknownOwner, "<unknown>")
  }

  /** The method and async kinds that the validators name are never produced. */
  lemma NodeInfoNeverMethod(node: Node)
    ensures GetNodeInfo(node).0 !in {AsyncFunctionOwner, MethodOwner, AsyncMethodOwner}
  {
  }

  /** `_extract_docstring_info` once the raw lines are known. */
  function BuildDocstringInfo(node: Node, token: Token, rawLines: seq<RawLine>): DocstringInfo {
    var (nodeType, nodeName) := GetNodeInfo(node);
    DocstringInfo(
      node, token, rawLines, GetDocstringContent(token.text),
      token.startLine, token.endLine,
      if rawLines != [] then |rawLines[0].1| else 0,
      nodeType, nodeName)
  }

  /**
   * `_extract_docstring_info`: the record for a docstring token of a node.
   * A token with text that starts within the source always has raw lines.
   */
  function DocstringInfoOf(node: Node, token: Token, source: seq<string>): (r: DocstringInfo)
    requires WellPlaced(token, source)
    ensures r.node == node && r.token == token
    ensures r.rawLines == DocstringLines(token, source)
    ensures r.content == GetDocstringContent(token.text)
    ensures (r.nodeType, r.nodeName) == GetNodeInfo(node)
    ensures r.startLine == token.startLine && r.endLine == token.endLine
    ensures r.rawLines != [] ==> r.indentLevel == |r.rawLines[0].1|
    ensures r.rawLines == [] ==> r.indentLevel == 0
    ensures token.text != [] && token.startLine <= |source| && token.startLine <= token.endLine ==> r.rawLines != []
  {
    BuildDocstringInfo(node, token, DocstringLines(token, source))
  }

  /**
   * The "indent level" of a multi-line docstring is the length of its
   * whole first line, quotes and text included, not the width of its
   * indentation.
   */
  lemma {:induction false} IndentIsFirstLineLength(node: Node, token: Token, source: seq<string>)
    requires WellPlaced(token, source) && token.startLine != token.endLine
    requires token.startLine <= token.endLine && token.startLine <= |source|
    ensures DocstringInfoOf(node, token, source).indentLevel == |source[token.startLine - 1]|
  {
    var lines := DocstringLines(token, source);
    assert |lines| >= 1;
    assert lines[0].1 == source[token.startLine - 1];
  }
}
