/**
 * `validate_docstrings` of rigorq/checks/docstrings.py once the source
 * text is split into lines, parsed and tokenized: the candidate windows for
 * the module and for each class and function, the set of token spans
 * already handled, the optional skipping of private names, and the run of
 * every rule over each docstring. The functions here say what the driver
 * computes; `RunValidateDocstrings` and its helpers are the loops of the
 * source, proved to compute it.
 */
module Driver {
  import opened Wrappers
  import opened PyStr
  import opened Style
  import opened Docstrings
  import opened Validators

  // ---------------------------------------------------------------------
  // The syntax tree in `ast.walk` order
  // ---------------------------------------------------------------------

  /** The number of nodes in a tree. */
  function NodeSize(n: Node): nat
    decreases n, 1
  {
    1 + ForestSize(n.body)
  }

  /** The number of nodes in a sequence of trees. */
  function ForestSize(ns: seq<Node>): nat
    decreases ns, 0
  {
    if ns == [] then 0 else NodeSize(ns[0]) + ForestSize(ns[1..])
  }

  lemma {:induction false} ForestSizeAppend(a: seq<Node>, b: seq<Node>)
    ensures ForestSize(a + b) == ForestSize(a) + ForestSize(b)
    decreases |a|
  {
    if a == [] {
      assert a + b == b;
    } else {
      assert (a + b)[0] == a[0] && (a + b)[1..] == a[1..] + b;
      ForestSizeAppend(a[1..], b);
    }
  }

  /**
   * `ast.walk` from a queue of nodes: take the first, queue its children
   * after the rest, and go on until the queue is empty (breadth first).
   */
  function WalkQueue(queue: seq<Node>): (r: seq<Node>)
    decreases ForestSize(queue)
  {
    if queue == [] then []
    else
      ForestSizeAppend(queue[1..], queue[0].body);
      assert ForestSize(queue) == 1 + ForestSize(queue[0].body) + ForestSize(queue[1..]);
      [queue[0]] + WalkQueue(queue[1..] + queue[0].body)
  }

  /** The walk has as many entries as the queued trees have nodes. */
  lemma {:induction false} WalkQueueVisitsEachNode(queue: seq<Node>)
    ensures |WalkQueue(queue)| == ForestSize(queue)
    decreases ForestSize(queue)
  {
    if queue != [] {
      ForestSizeAppend(queue[1..], queue[0].body);
      assert ForestSize(queue) == 1 + ForestSize(queue[0].body) + ForestSize(queue[1..]);
      WalkQueueVisitsEachNode(queue[1..] + queue[0].body);
    }
  }

  /** Every queued node occurs in the walk. */
  lemma {:induction false} WalkQueueKeeps(queue: seq<Node>)
    ensures forall n :: n in queue ==> n in WalkQueue(queue)
    decreases ForestSize(queue)
  {
    if queue != [] {
      ForestSizeAppend(queue[1..], queue[0].body);
      assert ForestSize(queue) == 1 + ForestSize(queue[0].body) + ForestSize(queue[1..]);
      WalkQueueKeeps(queue[1..] + queue[0].body);
      forall n | n in queue
        ensures n in WalkQueue(queue)
      {
        if n != queue[0] {
          assert n in queue[1..] + queue[0].body;
        }
      }
    }
  }

  /** The children of every node in the walk are in the walk too, so no descendant is missed. */
  lemma {:induction false} WalkQueueClosed(queue: seq<Node>)
    ensures forall n, c :: n in WalkQueue(queue) && c in n.body ==> c in WalkQueue(queue)
    decreases ForestSize(queue)
  {
    if queue != [] {
      ForestSizeAppend(queue[1..], queue[0].body);
      assert ForestSize(queue) == 1 + ForestSize(queue[0].body) + ForestSize(queue[1..]);
      var rest := queue[1..] + queue[0].body;
      WalkQueueClosed(rest);
      WalkQueueKeeps(rest);
      assert WalkQueue(queue) == [queue[0]] + WalkQueue(rest);
      forall n, c | n in WalkQueue(queue) && c in n.body
        ensures c in WalkQueue(queue)
      {
        if n == queue[0] {
          assert c in rest;
        }
      }
    }
  }

  /** `ast.walk(tree)`: the tree first, then its descendants breadth first. */
  function Walk(tree: Node): (r: seq<Node>)
    ensures |r| >= 1 && r[0] == tree
  {
    WalkQueue([tree])
  }

  /** The walk has one entry per node of the tree, and holds the children of each node it holds. */
  lemma WalkSize(tree: Node)
    ensures |Walk(tree)| == NodeSize(tree)
    ensures forall n, c :: n in Walk(tree) && c in n.body ==> c in Walk(tree)
  {
    WalkQueueClosed([tree]);
    WalkQueueVisitsEachNode([tree]);
    assert ForestSize([tree]) == NodeSize(tree) + ForestSize([]);
  }

  // ---------------------------------------------------------------------
  // Candidate windows
  // ---------------------------------------------------------------------

  /** The STRING tokens, in stream order. */
  function StringTokens(tokens: seq<Token>): (r: seq<Token>)
    ensures |r| <= |tokens|
    ensures forall k :: 0 <= k < |r| ==> r[k].isString && r[k] in tokens
    ensures forall k :: 0 <= k < |tokens| && tokens[k].isString ==> tokens[k] in r
    decreases |tokens|
  {
    if tokens == [] then []
    else (if tokens[0].isString then [tokens[0]] else []) + StringTokens(tokens[1..])
  }

  /** The tokens that start on line 3 or before: the module's candidates. */
  function ModuleWindow(strings: seq<Token>): (r: seq<Token>)
    ensures |r| <= |strings|
    ensures forall k :: 0 <= k < |r| ==> r[k].startLine <= 3 && r[k] in strings
    ensures forall k :: 0 <= k < |strings| && strings[k].startLine <= 3 ==> strings[k] in r
    decreases |strings|
  {
    if strings == [] then []
    else (if strings[0].startLine <= 3 then [strings[0]] else []) + ModuleWindow(strings[1..])
  }

  /** The tokens that start between a node's first line and two lines past its last: the node's candidates. */
  function NodeWindow(node: Node, strings: seq<Token>): (r: seq<Token>)
    ensures |r| <= |strings|
    ensures forall k :: 0 <= k < |r| ==>
              node.lineno <= r[k].startLine <= node.endLineno + 2 && r[k] in strings
    ensures forall k :: 0 <= k < |strings| && node.lineno <= strings[k].startLine <= node.endLineno + 2 ==>
              strings[k] in r
    decreases |strings|
  {
    if strings == [] then []
    else
      (if node.lineno <= strings[0].startLine <= node.endLineno + 2 then [strings[0]] else [])
      + NodeWindow(node, strings[1..])
  }

  /** The statement after the first in a body, passed to the candidate test (which ignores it). */
  function NextStatement(node: Node): Option<Node> {
    if |node.body| > 1 then Some(node.body[1]) else None
  }

  /** Classes, functions and async functions: the nodes whose windows the walk searches. */
  predicate IsDefinition(k: NodeKind) {
    k.ClassDef? || k.FunctionDef? || k.AsyncFunctionDef?
  }

  /** A name starting with `_` that is not a dunder name. */
  predicate IsPrivate(name: string) {
    StartsWith(name, "_") && !(StartsWith(name, "__") && EndsWith(name, "__"))
  }

  /** Single underscores are private, dunder names and plain names are not. */
  lemma PrivateNames()
    ensures IsPrivate("_helper") && IsPrivate("_") && IsPrivate("__mangled")
    ensures !IsPrivate("__init__") && !IsPrivate("__") && !IsPrivate("public")
  {
    assert "_helper"[..1] == "_" && "_"[..1] == "_" && "__mangled"[..1] == "_";
    assert "__mangled"[|"__mangled"| - 2..] == "ma"[..0] + "ed";
    assert "__init__"[..2] == "__" && "__init__"[|"__init__"| - 2..] == "__";
    assert "__"[..2] == "__";
    assert "public"[..1] != "_" by { assert "public"[0] != '_'; }
  }

  /** Every private name starts with an underscore. */
  lemma PrivateStartsWithUnderscore(name: string)
    ensures IsPrivate(name) ==> |name| > 0 && name[0] == '_'
  {
    if IsPrivate(name) {
      assert name[..1][0] == name[0];
    }
  }

  /** A dunder name is never private, whatever lies between the underscores. */
  lemma DunderNotPrivate(s: string)
    ensures !IsPrivate("__" + s + "__")
  {
    var name := "__" + s + "__";
    assert name[..2] == "__";
    assert name[|name| - 2..] == "__";
  }

  /** One underscore in front of a name that does not start with one makes it private. */
  lemma SingleUnderscorePrivate(s: string)
    ensures !StartsWith(s, "_") ==> IsPrivate("_" + s)
  {
    var name := "_" + s;
    assert name[..1] == "_";
    assert name[1..] == s;
  }

  // ---------------------------------------------------------------------
  // What one docstring reports
  // ---------------------------------------------------------------------

  /** One rule's line checks over the raw lines, in order. */
  function LineViolations(v: Validator, rawLines: seq<RawLine>, info: DocstringInfo, path: Path): (r: seq<Violation>)
    ensures |r| <= |rawLines|
    ensures !v.MaxLineLength? ==> r == []
    decreases |rawLines|
  {
    if rawLines == [] then []
    else
      var last := rawLines[|rawLines| - 1];
      LineViolations(v, rawLines[..|rawLines| - 1], info, path)
      + (match ValidateLine(v, last.0, last.1, info, path) case Some(w) => [w] case None => [])
  }

  /** Every rule in list order: its line checks, then its whole-docstring check. */
  function DocstringViolations(validators: seq<Validator>, info: DocstringInfo, path: Path): (r: seq<Violation>)
    decreases |validators|
  {
    if validators == [] then []
    else
      var v := validators[|validators| - 1];
      DocstringViolations(validators[..|validators| - 1], info, path)
      + LineViolations(v, info.rawLines, info, path) + ValidateDocstring(v, info, path)
  }

  /** A violation this file reports: for the file's path, from rigorq, under one of the rule codes. */
  predicate Attributed(w: Violation, path: Path) {
    w.path == path && w.tool == "rigorq" && w.code in {"RQ200", "RQ202", "RQ203", "RQ206"}
  }

  /** A rule's line checks report under that rule's code, for the file's path. */
  lemma {:induction false} LineViolationsAttributed(v: Validator, rawLines: seq<RawLine>, info: DocstringInfo, path: Path)
    ensures forall k :: 0 <= k < |LineViolations(v, rawLines, info, path)| ==>
              LineViolations(v, rawLines, info, path)[k].code == Code(v)
              && Attributed(LineViolations(v, rawLines, info, path)[k], path)
    decreases |rawLines|
  {
    if rawLines != [] {
      LineViolationsAttributed(v, rawLines[..|rawLines| - 1], info, path);
    }
  }

  /** Whatever rules run, every violation of a docstring is attributed to the file. */
  lemma {:induction false} DocstringViolationsAttributed(validators: seq<Validator>, info: DocstringInfo, path: Path)
    ensures forall k :: 0 <= k < |DocstringViolations(validators, info, path)| ==>
              Attributed(DocstringViolations(validators, info, path)[k], path)
    decreases |validators|
  {
    if validators != [] {
      var v := validators[|validators| - 1];
      DocstringViolationsAttributed(validators[..|validators| - 1], info, path);
      LineViolationsAttributed(v, info.rawLines, info, path);
    }
  }

  // ---------------------------------------------------------------------
  // The driver as a function of its inputs
  // ---------------------------------------------------------------------

  /** A token's identity for de-duplication: its start and end positions. */
  type Span = (int, int, int, int)

  function SpanOf(t: Token): Span {
    (t.startLine, t.startCol, t.endLine, t.endCol)
  }

  /** The fixed inputs of one run. */
  datatype Run = Run(path: Path, validators: seq<Validator>, skipPrivate: bool, source: seq<string>)

  /**
   * What `process_docstring` does with a docstring whose span is new:
   * `None` when the owner's name is private and private names are skipped,
   * otherwise the violations of every rule, in rule order. A token the
   * extraction cannot read never reaches it, because `ValidateDocstrings`
   * requires every STRING token to be placed; it would be given `None`.
   */
  function Judge(run: Run, node: Node, token: Token): (r: Option<seq<Violation>>)
    ensures r.Some? ==> WellPlaced(token, run.source)
  {
    if !WellPlaced(token, run.source) then None
    else
      var info := DocstringInfoOf(node, token, run.source);
      if run.skipPrivate && IsPrivate(info.nodeName) then None
      else Some(DocstringViolations(run.validators, info, run.path))
  }

  /** The per-docstring decision, as the closure `process_docstring` holds it. */
  type Judgement = (Node, Token) -> Option<seq<Violation>>

  function JudgeOf(run: Run): Judgement {
    (node: Node, token: Token) => Judge(run, node, token)
  }

  /** A docstring the rules ran on: its owner and its token. */
  datatype Handled = Handled(node: Node, token: Token)

  /**
   * The driver's state: the spans already handled (`validated_tokens`),
   * the docstrings the rules ran on, in order, and the violations so far.
   */
  datatype Progress = Progress(seen: set<Span>, handled: seq<Handled>, violations: seq<Violation>)

  /** The state before any docstring is processed. */
  const Start := Progress({}, [], [])

  /**
   * `process_docstring`: a span already handled is left alone; otherwise
   * the span is marked handled and, unless the decision skips it, the
   * docstring's violations are appended.
   */
  function Process(judge: Judgement, st: Progress, node: Node, token: Token): Progress {
    var span := SpanOf(token);
    if span in st.seen then st
    else
      match judge(node, token)
      case None => st.(seen := st.seen + {span})
      case Some(found) => Progress(st.seen + {span}, st.handled + [Handled(node, token)], st.violations + found)
  }

  /** The candidates of one owner, token by token: each docstring candidate is processed. */
  function ProcessWindow(judge: Judgement, st: Progress, node: Node, window: seq<Token>): Progress
    decreases |window|
  {
    if window == [] then st
    else
      var token := window[|window| - 1];
      var before := ProcessWindow(judge, st, node, window[..|window| - 1]);
      if IsDocstringCandidate(node, token, NextStatement(node)) then Process(judge, before, node, token) else before
  }

  /** The walk, node by node: each class or function has its candidates processed. */
  function ProcessNodes(judge: Judgement, st: Progress, nodes: seq<Node>, strings: seq<Token>): Progress
    decreases |nodes|
  {
    if nodes == [] then st
    else
      var node := nodes[|nodes| - 1];
      var before := ProcessNodes(judge, st, nodes[..|nodes| - 1], strings);
      if IsDefinition(node.kind) then ProcessWindow(judge, before, node, NodeWindow(node, strings)) else before
  }

  /** The driver on a parsed and tokenized file: the module's candidates, then the walk's. */
  function Drive(judge: Judgement, tree: Node, tokens: seq<Token>): (r: Progress)
    ensures StringTokens(tokens) == [] ==> r == Start
  {
    var strings := StringTokens(tokens);
    if strings == [] then Start
    else ProcessNodes(judge, ProcessWindow(judge, Start, tree, ModuleWindow(strings)), Walk(tree), strings)
  }

  /** The rules run when the caller names none. */
  function RulesOrDefault(validators: Option<seq<Validator>>): (r: seq<Validator>)
    ensures validators.None? ==> r == [MaxLineLength(72), FirstLineSummary(true), ParameterReturn]
    ensures validators.Some? ==> r == validators.value
  {
    match validators
    case Some(vs) => vs
    case None => DefaultValidators
  }

  /** Every STRING token lies where the extraction can read it. */
  predicate StringsPlaced(tokens: seq<Token>, source: seq<string>) {
    forall k :: 0 <= k < |tokens| && tokens[k].isString ==> WellPlaced(tokens[k], source)
  }

  /** The inputs of `validate_docstrings` gathered into one run. */
  function RunOf(path: Path, validators: Option<seq<Validator>>, skipPrivate: bool, sourceText: string): Run {
    Run(path, RulesOrDefault(validators), skipPrivate, SplitLines(sourceText))
  }

  /**
   * `validate_docstrings(path, validators, skip_private)` on the file's
   * text, its syntax tree and its tokens.
   */
  function ValidateDocstrings(
    path: Path, validators: Option<seq<Validator>>, skipPrivate: bool,
    sourceText: string, tree: Node, tokens: seq<Token>): (r: seq<Violation>)
    requires StringsPlaced(tokens, SplitLines(sourceText))
    ensures (forall k :: 0 <= k < |tokens| ==> !tokens[k].isString) ==> r == []
  {
    Drive(JudgeOf(RunOf(path, validators, skipPrivate, sourceText)), tree, tokens).violations
  }

  // ---------------------------------------------------------------------
  // What the driver guarantees
  // ---------------------------------------------------------------------

  /** The violations a decision gives for a list of handled docstrings, in order. */
  function Reported(judge: Judgement, handled: seq<Handled>): seq<Violation>
    decreases |handled|
  {
    if handled == [] then []
    else
      var h := handled[|handled| - 1];
      Reported(judge, handled[..|handled| - 1])
      + match judge(h.node, h.token) case Some(found) => found case None => []
  }

  /**
   * The driver's state is consistent: no span handled twice, every handled
   * span recorded, no handled docstring one the decision skips, and the
   * violations exactly those of the handled docstrings, in order.
   */
  predicate Consistent(judge: Judgement, st: Progress) {
    && (forall i, j :: 0 <= i < j < |st.handled| ==> SpanOf(st.handled[i].token) != SpanOf(st.handled[j].token))
    && (forall k :: 0 <= k < |st.handled| ==> SpanOf(st.handled[k].token) in st.seen)
    && (forall k :: 0 <= k < |st.handled| ==> judge(st.handled[k].node, st.handled[k].token).Some?)
    && st.violations == Reported(judge, st.handled)
  }

  /** The later state extends the earlier one: more spans seen, handled docstrings only appended. */
  predicate Extends(st: Progress, r: Progress) {
    st.seen <= r.seen && |st.handled| <= |r.handled| && r.handled[..|st.handled|] == st.handled
  }

  /**
   * One call of `process_docstring` keeps the state consistent, records the
   * token's span, and handles the docstring exactly when its span is new
   * and the decision does not skip it.
   */
  lemma ProcessConsistent(judge: Judgement, st: Progress, node: Node, token: Token)
    requires Consistent(judge, st)
    ensures var r := Process(judge, st, node, token);
            && Consistent(judge, r) && Extends(st, r)
            && r.seen == st.seen + {SpanOf(token)}
            && (r.handled == st.handled + [Handled(node, token)] <==>
                  SpanOf(token) !in st.seen && judge(node, token).Some?)
            && (r.handled != st.handled + [Handled(node, token)] ==> r.handled == st.handled)
  {
    var r := Process(judge, st, node, token);
    var h := Handled(node, token);
    if SpanOf(token) !in st.seen && judge(node, token).Some? {
      assert r.handled == st.handled + [h];
      assert r.handled[..|st.handled|] == st.handled;
      assert r.handled[..|r.handled| - 1] == st.handled;
    } else {
      assert |st.handled + [h]| != |st.handled|;
    }
  }

  /**
   * Processing a window keeps the state consistent, and whatever it handles
   * is a docstring candidate of the window's owner lying in the window.
   */
  lemma {:induction false} WindowConsistent(judge: Judgement, st: Progress, node: Node, window: seq<Token>)
    requires Consistent(judge, st)
    ensures var r := ProcessWindow(judge, st, node, window);
            && Consistent(judge, r) && Extends(st, r)
            && (forall k :: |st.handled| <= k < |r.handled| ==>
                  && r.handled[k].node == node && r.handled[k].token in window
                  && IsDocstringCandidate(node, r.handled[k].token, NextStatement(node)))
    decreases |window|
  {
    if window != [] {
      var init := window[..|window| - 1];
      var token := window[|window| - 1];
      var before := ProcessWindow(judge, st, node, init);
      WindowConsistent(judge, st, node, init);
      if IsDocstringCandidate(node, token, NextStatement(node)) {
        ProcessConsistent(judge, before, node, token);
      }
      var r := ProcessWindow(judge, st, node, window);
      assert r.handled[..|before.handled|] == before.handled;
      assert r.handled[..|st.handled|] == r.handled[..|before.handled|][..|st.handled|];
      assert forall t :: t in init ==> t in window;
    }
  }

  /** Processing a window records the span of every candidate in it, and forgets none already recorded. */
  lemma {:induction false} WindowCovers(judge: Judgement, st: Progress, node: Node, window: seq<Token>)
    ensures var r := ProcessWindow(judge, st, node, window);
            && st.seen <= r.seen
            && (forall k :: 0 <= k < |window| && IsDocstringCandidate(node, window[k], NextStatement(node)) ==>
                  SpanOf(window[k]) in r.seen)
    decreases |window|
  {
    if window != [] {
      var init := window[..|window| - 1];
      WindowCovers(judge, st, node, init);
      assert forall k :: 0 <= k < |init| ==> init[k] == window[k];
    }
  }

  /**
   * Processing the walk keeps the state consistent, and whatever it handles
   * is a docstring candidate of a class or function of the walk, lying in
   * that node's window.
   */
  lemma {:induction false} NodesConsistent(judge: Judgement, st: Progress, nodes: seq<Node>, strings: seq<Token>)
    requires Consistent(judge, st)
    ensures var r := ProcessNodes(judge, st, nodes, strings);
            && Consistent(judge, r) && Extends(st, r)
            && (forall k :: |st.handled| <= k < |r.handled| ==>
                  && r.handled[k].node in nodes && IsDefinition(r.handled[k].node.kind)
                  && r.handled[k].token in NodeWindow(r.handled[k].node, strings)
                  && IsDocstringCandidate(r.handled[k].node, r.handled[k].token, NextStatement(r.handled[k].node)))
    decreases |nodes|
  {
    if nodes != [] {
      var init := nodes[..|nodes| - 1];
      var node := nodes[|nodes| - 1];
      var before := ProcessNodes(judge, st, init, strings);
      NodesConsistent(judge, st, init, strings);
      var r := ProcessNodes(judge, st, nodes, strings);
      if IsDefinition(node.kind) {
        WindowConsistent(judge, before, node, NodeWindow(node, strings));
        assert r.handled[..|before.handled|] == before.handled;
        assert r.handled[..|st.handled|] == r.handled[..|before.handled|][..|st.handled|];
      }
      forall k | |st.handled| <= k < |r.handled|
        ensures r.handled[k].node in nodes && IsDefinition(r.handled[k].node.kind)
        ensures r.handled[k].token in NodeWindow(r.handled[k].node, strings)
        ensures IsDocstringCandidate(r.handled[k].node, r.handled[k].token, NextStatement(r.handled[k].node))
      {
        if k < |before.handled| {
          assert r.handled[k] == before.handled[k];
          assert before.handled[k].node in init;
        }
      }
    }
  }

  /** Processing the walk records the span of every candidate of every class and function window. */
  lemma {:induction false} NodesCover(judge: Judgement, st: Progress, nodes: seq<Node>, strings: seq<Token>)
    ensures var r := ProcessNodes(judge, st, nodes, strings);
            && st.seen <= r.seen
            && (forall n, t :: n in nodes && IsDefinition(n.kind) && t in NodeWindow(n, strings)
                  && IsDocstringCandidate(n, t, NextStatement(n))
                  ==> SpanOf(t) in r.seen)
    decreases |nodes|
  {
    if nodes != [] {
      var init := nodes[..|nodes| - 1];
      var node := nodes[|nodes| - 1];
      var before := ProcessNodes(judge, st, init, strings);
      NodesCover(judge, st, init, strings);
      if IsDefinition(node.kind) {
        var window := NodeWindow(node, strings);
        WindowCovers(judge, before, node, window);
        assert forall t :: t in window ==> exists k :: 0 <= k < |window| && window[k] == t;
      }
      assert forall n :: n in nodes ==> n in init || n == node;
    }
  }

  /** The whole driver leaves its state consistent. */
  lemma DriveConsistent(judge: Judgement, tree: Node, tokens: seq<Token>)
    ensures Consistent(judge, Drive(judge, tree, tokens))
  {
    var strings := StringTokens(tokens);
    if strings != [] {
      var afterModule := ProcessWindow(judge, Start, tree, ModuleWindow(strings));
      WindowConsistent(judge, Start, tree, ModuleWindow(strings));
      NodesConsistent(judge, afterModule, Walk(tree), strings);
    }
  }

  /**
   * Every docstring the whole driver ran the rules on is a STRING token
   * that is a docstring candidate either of the module, starting on line 3
   * or before, or of a class or function of the walk, starting between the
   * node's first line and two lines past its last.
   */
  lemma DriveHandlesCandidates(judge: Judgement, tree: Node, tokens: seq<Token>)
    ensures var r := Drive(judge, tree, tokens);
            forall k :: 0 <= k < |r.handled| ==>
              var h := r.handled[k];
              && h.token in tokens && h.token.isString
              && IsDocstringCandidate(h.node, h.token, NextStatement(h.node))
              && ((h.node == tree && h.token.startLine <= 3)
                  || (h.node in Walk(tree) && IsDefinition(h.node.kind)
                      && h.node.lineno <= h.token.startLine <= h.node.endLineno + 2))
  {
    var strings := StringTokens(tokens);
    if strings != [] {
      var moduleWindow := ModuleWindow(strings);
      var afterModule := ProcessWindow(judge, Start, tree, moduleWindow);
      WindowConsistent(judge, Start, tree, moduleWindow);
      NodesConsistent(judge, afterModule, Walk(tree), strings);
      var r := Drive(judge, tree, tokens);
      forall k | 0 <= k < |r.handled|
        ensures var h := r.handled[k];
                && h.token in tokens && h.token.isString
                && IsDocstringCandidate(h.node, h.token, NextStatement(h.node))
                && ((h.node == tree && h.token.startLine <= 3)
                    || (h.node in Walk(tree) && IsDefinition(h.node.kind)
                        && h.node.lineno <= h.token.startLine <= h.node.endLineno + 2))
      {
        var h := r.handled[k];
        if k < |afterModule.handled| {
          assert h == afterModule.handled[k];
          assert h.token in moduleWindow;
        } else {
          assert h.token in NodeWindow(h.node, strings);
        }
        assert h.token in strings;
        var j :| 0 <= j < |strings| && strings[j] == h.token;
      }
    }
  }

  /**
   * The whole driver records the span of every docstring candidate of the
   * module among the STRING tokens starting on line 3 or before, and of
   * every candidate of every class and function of the walk within its
   * window: none is overlooked.
   */
  lemma DriveCovers(judge: Judgement, tree: Node, tokens: seq<Token>)
    ensures var r := Drive(judge, tree, tokens);
            && (forall t :: t in tokens && t.isString && t.startLine <= 3
                  && IsDocstringCandidate(tree, t, NextStatement(tree))
                  ==> SpanOf(t) in r.seen)
            && (forall n, t :: n in Walk(tree) && IsDefinition(n.kind) && t in tokens && t.isString
                  && n.lineno <= t.startLine <= n.endLineno + 2
                  && IsDocstringCandidate(n, t, NextStatement(n))
                  ==> SpanOf(t) in r.seen)
  {
    var strings := StringTokens(tokens);
    var r := Drive(judge, tree, tokens);
    var moduleWindow := ModuleWindow(strings);
    var afterModule := ProcessWindow(judge, Start, tree, moduleWindow);
    WindowCovers(judge, Start, tree, moduleWindow);
    NodesCover(judge, afterModule, Walk(tree), strings);
    forall t | t in tokens && t.isString
      ensures t in strings
    {
      var k :| 0 <= k < |tokens| && tokens[k] == t;
    }
    forall t | t in strings && t.startLine <= 3
      ensures t in moduleWindow
    {
      var k :| 0 <= k < |strings| && strings[k] == t;
    }
    forall n: Node, t | t in strings && n.lineno <= t.startLine <= n.endLineno + 2
      ensures t in NodeWindow(n, strings)
    {
      var k :| 0 <= k < |strings| && strings[k] == t;
    }
    forall t | t in moduleWindow
      ensures exists k :: 0 <= k < |moduleWindow| && moduleWindow[k] == t
    {
    }
  }

  /** Every violation a list of handled docstrings reports is attributed to the file. */
  lemma {:induction false} ReportedAttributed(run: Run, handled: seq<Handled>)
    ensures forall k :: 0 <= k < |Reported(JudgeOf(run), handled)| ==>
              Attributed(Reported(JudgeOf(run), handled)[k], run.path)
    decreases |handled|
  {
    if handled != [] {
      var h := handled[|handled| - 1];
      ReportedAttributed(run, handled[..|handled| - 1]);
      if WellPlaced(h.token, run.source) {
        DocstringViolationsAttributed(run.validators, DocstringInfoOf(h.node, h.token, run.source), run.path);
      }
    }
  }

  /**
   * `validate_docstrings` reports exactly the violations of the docstrings
   * it ran the rules on, each under one of the rule codes, for the file's
   * path, from rigorq.
   */
  lemma ValidateDocstringsReports(
    path: Path, validators: Option<seq<Validator>>, skipPrivate: bool,
    sourceText: string, tree: Node, tokens: seq<Token>)
    requires StringsPlaced(tokens, SplitLines(sourceText))
    ensures var run := RunOf(path, validators, skipPrivate, sourceText);
            var r := ValidateDocstrings(path, validators, skipPrivate, sourceText, tree, tokens);
            && r == Reported(JudgeOf(run), Drive(JudgeOf(run), tree, tokens).handled)
            && forall k :: 0 <= k < |r| ==> Attributed(r[k], path)
  {
    var run := RunOf(path, validators, skipPrivate, sourceText);
    DriveConsistent(JudgeOf(run), tree, tokens);
    ReportedAttributed(run, Drive(JudgeOf(run), tree, tokens).handled);
  }

  // ---------------------------------------------------------------------
  // The driver's loops
  // ---------------------------------------------------------------------

  lemma LineViolationsStep(v: Validator, rawLines: seq<RawLine>, j: int, info: DocstringInfo, path: Path)
    requires 0 <= j < |rawLines|
    ensures LineViolations(v, rawLines[..j + 1], info, path)
            == LineViolations(v, rawLines[..j], info, path)
               + match ValidateLine(v, rawLines[j].0, rawLines[j].1, info, path) case Some(w) => [w] case None => []
  {
    assert rawLines[..j + 1][..j] == rawLines[..j];
  }

  /** A rule's line checks over the raw lines, appended to the violations so far. */
  method CheckLines(v: Validator, info: DocstringInfo, path: Path, violations0: seq<Violation>)
    returns (violations: seq<Violation>)
    ensures violations == violations0 + LineViolations(v, info.rawLines, info, path)
  {
    violations := violations0;
    for j := 0 to |info.rawLines|
      invariant violations == violations0 + LineViolations(v, info.rawLines[..j], info, path)
    {
      var found := ValidateLine(v, info.rawLines[j].0, info.rawLines[j].1, info, path);
      var step := match found case Some(w) => [w] case None => [];
      LineViolationsStep(v, info.rawLines, j, info, path);
      violations := violations + step;
    }
    assert info.rawLines[..|info.rawLines|] == info.rawLines;
  }

  lemma DocstringViolationsStep(validators: seq<Validator>, i: int, info: DocstringInfo, path: Path)
    requires 0 <= i < |validators|
    ensures DocstringViolations(validators[..i + 1], info, path)
            == DocstringViolations(validators[..i], info, path)
               + LineViolations(validators[i], info.rawLines, info, path) + ValidateDocstring(validators[i], info, path)
  {
    assert validators[..i + 1][..i] == validators[..i];
  }

  lemma AppendRegroup<T>(a: seq<T>, b: seq<T>, c: seq<T>, d: seq<T>)
    ensures a + b + c + d == a + (b + c + d)
  {
  }

  /** Every rule in order, line checks then the whole-docstring check, appended to the violations so far. */
  method RunRules(validators: seq<Validator>, info: DocstringInfo, path: Path, violations0: seq<Violation>)
    returns (violations: seq<Violation>)
    ensures violations == violations0 + DocstringViolations(validators, info, path)
  {
    violations := violations0;
    for i := 0 to |validators|
      invariant violations == violations0 + DocstringViolations(validators[..i], info, path)
    {
      var v := validators[i];
      ghost var before := violations;
      violations := CheckLines(v, info, path, violations);
      var whole := RunValidateDocstring(v, info, path);
      violations := violations + whole;
      DocstringViolationsStep(validators, i, info, path);
      AppendRegroup(violations0, DocstringViolations(validators[..i], info, path),
                    LineViolations(v, info.rawLines, info, path), whole);
    }
    assert validators[..|validators|] == validators;
  }

  /** `process_docstring`, with the spans seen and the violations as its state. */
  method ProcessDocstring(
    run: Run, seen0: set<Span>, ghost handled0: seq<Handled>, violations0: seq<Violation>, node: Node, token: Token)
    returns (seen: set<Span>, ghost handled: seq<Handled>, violations: seq<Violation>)
    requires WellPlaced(token, run.source)
    ensures seen == Process(JudgeOf(run), Progress(seen0, handled0, violations0), node, token).seen
    ensures violations == Process(JudgeOf(run), Progress(seen0, handled0, violations0), node, token).violations
    ensures handled == Process(JudgeOf(run), Progress(seen0, handled0, violations0), node, token).handled
  {
    seen, handled, violations := seen0, handled0, violations0;
    var span := SpanOf(token);
    if span in seen {
      return;
    }
    var rawLines := ExtractDocstringLines(token, run.source);
    var info := BuildDocstringInfo(node, token, rawLines);
    seen := seen + {span};
    if run.skipPrivate && IsPrivate(info.nodeName) {
      return;
    }
    handled := handled + [Handled(node, token)];
    violations := RunRules(run.validators, info, run.path, violations);
  }

  /** A STRING token of a file whose STRING tokens are all placed is placed. */
  lemma StringTokenPlaced(tokens: seq<Token>, source: seq<string>, t: Token)
    requires StringsPlaced(tokens, source) && t in StringTokens(tokens)
    ensures WellPlaced(t, source)
  {
    var strings := StringTokens(tokens);
    var k :| 0 <= k < |strings| && strings[k] == t;
    var m :| 0 <= m < |tokens| && tokens[m] == t;
  }

  /** The loop over one owner's candidate tokens, processing each docstring candidate. */
  method ProcessCandidates(
    run: Run, seen0: set<Span>, ghost handled0: seq<Handled>, violations0: seq<Violation>, node: Node, window: seq<Token>)
    returns (seen: set<Span>, ghost handled: seq<Handled>, violations: seq<Violation>)
    requires forall k :: 0 <= k < |window| ==> WellPlaced(window[k], run.source)
    ensures seen == ProcessWindow(JudgeOf(run), Progress(seen0, handled0, violations0), node, window).seen
    ensures violations == ProcessWindow(JudgeOf(run), Progress(seen0, handled0, violations0), node, window).violations
    ensures handled == ProcessWindow(JudgeOf(run), Progress(seen0, handled0, violations0), node, window).handled
  {
    seen, handled, violations := seen0, handled0, violations0;
    var next := NextStatement(node);
    for j := 0 to |window|
      invariant Progress(seen, handled, violations)
                == ProcessWindow(JudgeOf(run), Progress(seen0, handled0, violations0), node, window[..j])
    {
      var token := window[j];
      if IsDocstringCandidate(node, token, next) {
        seen, handled, violations := ProcessDocstring(run, seen, handled, violations, node, token);
      }
      assert window[..j + 1][..j] == window[..j];
    }
    assert window[..|window|] == window;
  }

  /** The loop over the walk: each class and function with its window, in walk order. */
  method ProcessWalk(
    run: Run, seen0: set<Span>, ghost handled0: seq<Handled>, violations0: seq<Violation>,
    nodes: seq<Node>, strings: seq<Token>)
    returns (seen: set<Span>, ghost handled: seq<Handled>, violations: seq<Violation>)
    requires forall k :: 0 <= k < |strings| ==> WellPlaced(strings[k], run.source)
    ensures seen == ProcessNodes(JudgeOf(run), Progress(seen0, handled0, violations0), nodes, strings).seen
    ensures violations == ProcessNodes(JudgeOf(run), Progress(seen0, handled0, violations0), nodes, strings).violations
    ensures handled == ProcessNodes(JudgeOf(run), Progress(seen0, handled0, violations0), nodes, strings).handled
  {
    seen, handled, violations := seen0, handled0, violations0;
    for i := 0 to |nodes|
      invariant Progress(seen, handled, violations)
                == ProcessNodes(JudgeOf(run), Progress(seen0, handled0, violations0), nodes[..i], strings)
    {
      var node := nodes[i];
      if IsDefinition(node.kind) {
        var candidates := NodeWindow(node, strings);
        seen, handled, violations := ProcessCandidates(run, seen, handled, violations, node, candidates);
      }
      assert nodes[..i + 1][..i] == nodes[..i];
    }
    assert nodes[..|nodes|] == nodes;
  }

  /**
   * `validate_docstrings` on the file's text, syntax tree and tokens: the
   * module's candidates, then each class and function of the walk with its
   * candidates.
   */
  method RunValidateDocstrings(
    path: Path, validators: Option<seq<Validator>>, skipPrivate: bool,
    sourceText: string, tree: Node, tokens: seq<Token>) returns (violations: seq<Violation>)
    requires StringsPlaced(tokens, SplitLines(sourceText))
    ensures violations == ValidateDocstrings(path, validators, skipPrivate, sourceText, tree, tokens)
  {
    var run := RunOf(path, validators, skipPrivate, sourceText);
    var strings := StringTokens(tokens);
    if strings == [] {
      return [];
    }
    forall k | 0 <= k < |strings|
      ensures WellPlaced(strings[k], run.source)
    {
      StringTokenPlaced(tokens, run.source, strings[k]);
    }
    var seen: set<Span> := {};
    ghost var handled: seq<Handled> := [];
    violations := [];
    var moduleWindow := ModuleWindow(strings);
    seen, handled, violations := ProcessCandidates(run, seen, handled, violations, tree, moduleWindow);
    seen, handled, violations := ProcessWalk(run, seen, handled, violations, Walk(tree), strings);
  }
}
