/**
 * The unified reporter of rigorq/reporter.py: the violation and error
 * lists a run fills in, the clean/exit-code decision, the plain and
 * coloured line format, the summary statistics, the order violations are
 * printed in, and the choice of auto-fix message. Writing to the terminal
 * and detecting a terminal are not part of this model; the text each
 * decision produces is.
 */
module Reporting {
  import opened Wrappers
  import opened PyStr
  import opened Style

  // ---------------------------------------------------------------------
  // ANSI colour codes
  // ---------------------------------------------------------------------

  const Esc: char := '\U{1B}'

  const Dim: string := [Esc] + "[2m"
  const BoldYellow: string := [Esc] + "[1;33m"
  const BoldCyan: string := [Esc] + "[1;36m"
  const BoldMagenta: string := [Esc] + "[1;35m"
  const Reset: string := [Esc] + "[0m"
  const Green: string := [Esc] + "[32m"
  const Yellow: string := [Esc] + "[33m"
  const Bold: string := [Esc] + "[1m"

  /** An escape sequence: ESC, then no `m` until the final `m`. */
  predicate IsEscape(c: string) {
    |c| >= 2 && c[0] == Esc && c[|c| - 1] == 'm' && 'm' !in c[1..|c| - 1]
  }

  /**
   * The text a terminal shows for `s`: every escape sequence, from ESC up
   * to and including the next `m`, removed.
   */
  function StripAnsi(s: string): (r: string)
    ensures |r| <= |s|
    decreases |s|
  {
    if s == [] then []
    else if s[0] != Esc then [s[0]] + StripAnsi(s[1..])
    else
      var k := IndexOfChar(s, 'm');
      if k == |s| then [] else StripAnsi(s[k + 1..])
  }

  /** Text without ESC is shown as it stands, before whatever follows. */
  lemma {:induction false} StripAnsiKeepsText(a: string, b: string)
    requires Esc !in a
    ensures StripAnsi(a + b) == a + StripAnsi(b)
    decreases |a|
  {
    if a == [] {
      assert a + b == b;
    } else {
      var s := a + b;
      assert s[0] == a[0] && s[1..] == a[1..] + b;
      assert a[0] in a && a == [a[0]] + a[1..];
      assert Esc !in a[1..] by {
        assert forall x :: x in a[1..] ==> x in a;
      }
      assert StripAnsi(s) == [a[0]] + StripAnsi(a[1..] + b);
      StripAnsiKeepsText(a[1..], b);
    }
  }

  /** An escape sequence in front of a text is not shown. */
  lemma StripAnsiDropsEscape(c: string, b: string)
    requires IsEscape(c)
    ensures StripAnsi(c + b) == StripAnsi(b)
  {
    var s := c + b;
    assert s[0] == Esc && s[|c| - 1] == 'm';
    assert forall j :: 1 <= j < |c| - 1 ==> s[j] == c[1..|c| - 1][j - 1];
    assert IndexOfChar(s, 'm') == |c| - 1;
    assert s[|c|..] == b;
  }

  lemma EscapesWellFormed()
    ensures IsEscape(Dim) && IsEscape(BoldYellow) && IsEscape(BoldCyan) && IsEscape(BoldMagenta) && IsEscape(Reset)
  {
    assert Dim[1..|Dim| - 1] == "[2";
    assert BoldYellow[1..|BoldYellow| - 1] == "[1;33";
    assert BoldCyan[1..|BoldCyan| - 1] == "[1;36";
    assert BoldMagenta[1..|BoldMagenta| - 1] == "[1;35";
    assert Reset[1..|Reset| - 1] == "[0";
  }

  /** `text` between a colour and the reset that ends it. */
  function Paint(colour: string, text: string): string {
    colour + text + Reset
  }

  /** A painted text is shown as the text itself, before whatever follows. */
  lemma StripPainted(colour: string, text: string, rest: string)
    requires IsEscape(colour) && Esc !in text
    ensures StripAnsi(Paint(colour, text) + rest) == text + StripAnsi(rest)
  {
    EscapesWellFormed();
    assert Paint(colour, text) + rest == colour + (text + (Reset + rest));
    StripAnsiDropsEscape(colour, text + (Reset + rest));
    StripAnsiKeepsText(text, Reset + rest);
    StripAnsiDropsEscape(Reset, rest);
  }

  // ---------------------------------------------------------------------
  // One violation per line
  // ---------------------------------------------------------------------

  /** The uncoloured line `path:line:col: code message`. */
  function PlainLine(v: Violation): string {
    v.path + ":" + IntToString(v.line) + ":" + IntToString(v.column) + ": " + v.code + " " + v.message
  }

  /** Codes starting with E, W, D or N are Ruff's and shown in cyan; every other code is rigorq's, in magenta. */
  function CodeColour(code: string): (r: string)
    ensures r == BoldCyan <==> StartsWith(code, "E") || StartsWith(code, "W") || StartsWith(code, "D") || StartsWith(code, "N")
    ensures r == BoldCyan || r == BoldMagenta
  {
    assert BoldCyan[5] != BoldMagenta[5];
    if StartsWith(code, "E") || StartsWith(code, "W") || StartsWith(code, "D") || StartsWith(code, "N")
    then BoldCyan else BoldMagenta
  }

  /** The rigorq codes are shown in magenta. */
  lemma RigorqCodesMagenta(code: string)
    requires code in {"RQ200", "RQ202", "RQ203", "RQ206"}
    ensures CodeColour(code) == BoldMagenta
  {
    assert code[..1] == "R";
  }

  /** The coloured line: dim path, bold yellow line and column, the code in its colour, the message plain. */
  function ColourLine(v: Violation): string {
    Paint(Dim, v.path) + (":" + (Paint(BoldYellow, IntToString(v.line)) + (":" +
      (Paint(BoldYellow, IntToString(v.column)) + (": " + (Paint(CodeColour(v.code), v.code) + (" " + v.message)))))))
  }

  /** The coloured line shows the code painted in the colour its prefix selects. */
  lemma CodePainted(v: Violation)
    ensures Contains(ColourLine(v), Paint(CodeColour(v.code), v.code))
  {
    var painted := Paint(CodeColour(v.code), v.code);
    var s := painted + (" " + v.message);
    ContainsMiddle([], painted, " " + v.message);
    assert [] + painted + (" " + v.message) == s;
    ContainsPrefixed(": ", s, painted);
    s := ": " + s;
    ContainsPrefixed(Paint(BoldYellow, IntToString(v.column)), s, painted);
    s := Paint(BoldYellow, IntToString(v.column)) + s;
    ContainsPrefixed(":", s, painted);
    s := ":" + s;
    ContainsPrefixed(Paint(BoldYellow, IntToString(v.line)), s, painted);
    s := Paint(BoldYellow, IntToString(v.line)) + s;
    ContainsPrefixed(":", s, painted);
    s := ":" + s;
    ContainsPrefixed(Paint(Dim, v.path), s, painted);
  }

  /** `str(i)` holds no ESC. */
  lemma IntToStringNoEsc(i: int)
    ensures Esc !in IntToString(i)
  {
    var n: nat := if i < 0 then -i else i;
    NatToStringDigits(n);
    if i < 0 {
      assert IntToString(i) == "-" + NatToString(n);
    }
  }

  lemma {:induction false} NatToStringDigits(n: nat)
    ensures forall k :: 0 <= k < |NatToString(n)| ==> IsDigit(NatToString(n)[k])
    decreases n
  {
    if n >= 10 {
      NatToStringDigits(n / 10);
    }
  }

  lemma SeparatorsNoEsc()
    ensures Esc !in ":" && Esc !in ": " && Esc !in " " && Esc !in "\n"
  {
  }

  /** The coloured layout with its escape sequences removed is the plain layout. */
  lemma StripColourLayout(p: string, l: string, c: string, code: string, msg: string, codeColour: string)
    requires IsEscape(codeColour)
    requires Esc !in p && Esc !in l && Esc !in c && Esc !in code && Esc !in msg
    ensures StripAnsi(Paint(Dim, p) + (":" + (Paint(BoldYellow, l) + (":" +
              (Paint(BoldYellow, c) + (": " + (Paint(codeColour, code) + (" " + msg))))))))
            == p + (":" + (l + (":" + (c + (": " + (code + (" " + msg)))))))
  {
    EscapesWellFormed();
    SeparatorsNoEsc();
    var t0 := " " + msg;
    StripAnsiKeepsText(t0, []);
    assert t0 + [] == t0;
    var t1 := Paint(codeColour, code) + t0;
    StripPainted(codeColour, code, t0);
    var t2 := ": " + t1;
    StripAnsiKeepsText(": ", t1);
    var t3 := Paint(BoldYellow, c) + t2;
    StripPainted(BoldYellow, c, t2);
    var t4 := ":" + t3;
    StripAnsiKeepsText(":", t3);
    var t5 := Paint(BoldYellow, l) + t4;
    StripPainted(BoldYellow, l, t4);
    var t6 := ":" + t5;
    StripAnsiKeepsText(":", t5);
    StripPainted(Dim, p, t6);
  }

  /** The plain line, its pieces grouped from the right. */
  lemma PlainLineRegrouped(v: Violation)
    ensures PlainLine(v) == v.path + (":" + (IntToString(v.line) + (":" + (IntToString(v.column)
                            + (": " + (v.code + (" " + v.message)))))))
  {
  }

  /**
   * Colour changes nothing a terminal shows: once the escape sequences are
   * removed, the coloured line is the plain line, whenever the path, code
   * and message hold no ESC themselves.
   */
  lemma ColourShowsPlainLine(v: Violation)
    requires Esc !in v.path && Esc !in v.code && Esc !in v.message
    ensures StripAnsi(ColourLine(v)) == PlainLine(v)
  {
    EscapesWellFormed();
    IntToStringNoEsc(v.line);
    IntToStringNoEsc(v.column);
    StripColourLayout(v.path, IntToString(v.line), IntToString(v.column), v.code, v.message, CodeColour(v.code));
    PlainLineRegrouped(v);
  }

  /**
   * The plain line has the layout of Ruff's concise output, so the style
   * check's reader takes it back: path, line and column come back as they
   * were, and the code and message come back together in the code field.
   */
  lemma PlainLineReadBack(v: Violation, basePath: Path)
    requires ':' !in v.path && ':' !in v.code && ':' !in v.message
    ensures ParseRuffLine(PlainLine(v), basePath)
            == Parsed(Violation(JoinPath(basePath, v.path), v.line, v.column, Strip(" " + v.code + " " + v.message), "", "ruff"))
  {
    ConciseLayoutPutsMessageInCode(v.path, v.line, v.column, v.code, v.message, basePath);
  }

  // ---------------------------------------------------------------------
  // Summary statistics
  // ---------------------------------------------------------------------

  /**
   * A per-tool count table in insertion order, as a Python dict keeps it:
   * each entry is a tool and its count.
   */
  type Tally = seq<(string, nat)>

  /** `by_tool[tool] = by_tool.get(tool, 0) + 1`. */
  function Bump(tally: Tally, tool: string): (r: Tally)
    ensures |r| == |tally| || |r| == |tally| + 1
    decreases |tally|
  {
    if tally == [] then [(tool, 1)]
    else if tally[0].0 == tool then [(tool, tally[0].1 + 1)] + tally[1..]
    else [tally[0]] + Bump(tally[1..], tool)
  }

  /** The count a table holds for a tool, 0 when it has none. */
  function CountOf(tally: Tally, tool: string): nat
    decreases |tally|
  {
    if tally == [] then 0
    else if tally[0].0 == tool then tally[0].1
    else CountOf(tally[1..], tool)
  }

  /** The sum of a table's counts. */
  function Total(tally: Tally): nat
    decreases |tally|
  {
    if tally == [] then 0 else tally[0].1 + Total(tally[1..])
  }

  /** No tool appears twice. */
  predicate DistinctTools(tally: Tally) {
    forall i, j :: 0 <= i < j < |tally| ==> tally[i].0 != tally[j].0
  }

  /** The table after counting every violation, front to back. */
  function TallyOf(vs: seq<Violation>): Tally
    decreases |vs|
  {
    if vs == [] then [] else Bump(TallyOf(vs[..|vs| - 1]), vs[|vs| - 1].tool)
  }

  /** The distinct path strings of the violations. */
  function PathsOf(vs: seq<Violation>): set<string>
    decreases |vs|
  {
    if vs == [] then {} else PathsOf(vs[..|vs| - 1]) + {vs[|vs| - 1].path}
  }

  /** How many of the violations a tool produced. */
  function Occurrences(vs: seq<Violation>, tool: string): nat
    decreases |vs|
  {
    if vs == [] then 0
    else Occurrences(vs[..|vs| - 1], tool) + (if vs[|vs| - 1].tool == tool then 1 else 0)
  }

  /** `ViolationSummary`: the total, the per-tool counts, and the number of files affected. */
  datatype ViolationSummary = ViolationSummary(total: nat, byTool: Tally, filesAffected: nat)

  /** What `_generate_summary` computes from the violations. */
  function SummaryOf(vs: seq<Violation>): ViolationSummary {
    ViolationSummary(|vs|, TallyOf(vs), |PathsOf(vs)|)
  }

  /** Counting one more violation of `tool` adds one to that tool's count and leaves the others. */
  lemma {:induction false} BumpCounts(tally: Tally, tool: string, other: string)
    ensures CountOf(Bump(tally, tool), other) == CountOf(tally, other) + (if other == tool then 1 else 0)
    decreases |tally|
  {
    if tally != [] && tally[0].0 != tool {
      BumpCounts(tally[1..], tool, other);
      assert Bump(tally, tool)[1..] == Bump(tally[1..], tool);
    }
  }

  /** Counting one more violation adds one to the table's sum. */
  lemma {:induction false} BumpTotal(tally: Tally, tool: string)
    ensures Total(Bump(tally, tool)) == Total(tally) + 1
    decreases |tally|
  {
    if tally != [] {
      if tally[0].0 == tool {
        assert Bump(tally, tool)[1..] == tally[1..];
      } else {
        BumpTotal(tally[1..], tool);
        assert Bump(tally, tool)[1..] == Bump(tally[1..], tool);
      }
    }
  }

  /** Whether a table has an entry for a tool. */
  predicate HasTool(tally: Tally, tool: string) {
    exists j :: 0 <= j < |tally| && tally[j].0 == tool
  }

  /** After counting, the tools are the ones already there, plus `tool`. */
  lemma {:induction false} BumpKeys(tally: Tally, tool: string)
    ensures forall name :: HasTool(Bump(tally, tool), name) ==> name == tool || HasTool(tally, name)
    decreases |tally|
  {
    var r := Bump(tally, tool);
    forall name | HasTool(r, name) && name != tool
      ensures HasTool(tally, name)
    {
      var i :| 0 <= i < |r| && r[i].0 == name;
      if tally[0].0 == tool {
        assert tally[i].0 == name;
      } else {
        BumpKeys(tally[1..], tool);
        var rest := Bump(tally[1..], tool);
        assert r == [tally[0]] + rest;
        if i > 0 {
          assert rest[i - 1].0 == name;
          assert HasTool(tally[1..], name);
          var j :| 0 <= j < |tally[1..]| && tally[1..][j].0 == name;
          assert tally[j + 1].0 == name;
        } else {
          assert tally[0].0 == name;
        }
      }
    }
  }

  /** Counting keeps the tools distinct and every count at least one. */
  lemma {:induction false} BumpKeeps(tally: Tally, tool: string)
    requires DistinctTools(tally) && forall i :: 0 <= i < |tally| ==> tally[i].1 >= 1
    ensures var r := Bump(tally, tool);
            DistinctTools(r) && forall i :: 0 <= i < |r| ==> r[i].1 >= 1
    decreases |tally|
  {
    if tally != [] && tally[0].0 != tool {
      var rest := Bump(tally[1..], tool);
      BumpKeeps(tally[1..], tool);
      BumpKeys(tally[1..], tool);
      assert Bump(tally, tool) == [tally[0]] + rest;
      forall i | 0 <= i < |rest|
        ensures rest[i].0 != tally[0].0
      {
        assert HasTool(rest, rest[i].0);
        if rest[i].0 != tool {
          var j :| 0 <= j < |tally[1..]| && tally[1..][j].0 == rest[i].0;
          assert tally[j + 1].0 == rest[i].0;
        }
      }
    }
  }

  /**
   * The per-tool table counts exactly each tool's violations, its counts
   * sum to the total, no tool appears twice, and every count is positive.
   */
  lemma {:induction false} TallyCountsTools(vs: seq<Violation>)
    ensures var t := TallyOf(vs);
            && (forall tool :: CountOf(t, tool) == Occurrences(vs, tool))
            && Total(t) == |vs|
            && DistinctTools(t)
            && (forall i :: 0 <= i < |t| ==> t[i].1 >= 1)
    decreases |vs|
  {
    if vs != [] {
      var init := vs[..|vs| - 1];
      var tool := vs[|vs| - 1].tool;
      TallyCountsTools(init);
      BumpTotal(TallyOf(init), tool);
      BumpKeeps(TallyOf(init), tool);
      forall other
        ensures CountOf(TallyOf(vs), other) == Occurrences(vs, other)
      {
        BumpCounts(TallyOf(init), tool, other);
      }
    }
  }

  /** The files affected are the paths of the violations; there are no more of them than violations, and at least one when there is a violation. */
  lemma {:induction false} PathsCounted(vs: seq<Violation>)
    ensures forall p :: p in PathsOf(vs) <==> exists k :: 0 <= k < |vs| && vs[k].path == p
    ensures |PathsOf(vs)| <= |vs|
    ensures vs != [] ==> |PathsOf(vs)| >= 1
    decreases |vs|
  {
    if vs != [] {
      var init := vs[..|vs| - 1];
      PathsCounted(init);
      forall p
        ensures p in PathsOf(vs) <==> exists k :: 0 <= k < |vs| && vs[k].path == p
      {
        if p in PathsOf(init) {
          var k :| 0 <= k < |init| && init[k].path == p;
          assert vs[k].path == p;
        }
        if exists k :: 0 <= k < |vs| && vs[k].path == p {
          var k :| 0 <= k < |vs| && vs[k].path == p;
          if k < |vs| - 1 {
            assert init[k].path == p;
          }
        }
      }
    }
  }

  /** The summary's total is the number of violations, its per-tool counts sum to it, and the files affected are at most as many. */
  lemma SummaryConsistent(vs: seq<Violation>)
    ensures var s := SummaryOf(vs);
            && s.total == |vs| && Total(s.byTool) == s.total
            && s.filesAffected <= s.total
            && (s.total > 0 ==> s.filesAffected >= 1)
  {
    TallyCountsTools(vs);
    PathsCounted(vs);
  }

  // ---------------------------------------------------------------------
  // The order violations are printed in
  // ---------------------------------------------------------------------

  /** Python's `<` on strings: by code point at the first difference, a proper prefix first. */
  predicate LexLess(a: string, b: string)
    decreases |a|
  {
    if a == [] then b != []
    else if b == [] then false
    else if a[0] != b[0] then a[0] < b[0]
    else LexLess(a[1..], b[1..])
  }

  lemma {:induction false} LexLessAsymmetric(a: string, b: string)
    ensures LexLess(a, b) ==> !LexLess(b, a)
    decreases |a|
  {
    if a != [] && b != [] && a[0] == b[0] {
      LexLessAsymmetric(a[1..], b[1..]);
    }
  }

  lemma {:induction false} LexLessTransitive(a: string, b: string, c: string)
    requires LexLess(a, b) && LexLess(b, c)
    ensures LexLess(a, c)
    decreases |a|
  {
    if a != [] && b != [] && c != [] && a[0] == b[0] && b[0] == c[0] {
      LexLessTransitive(a[1..], b[1..], c[1..]);
    }
  }

  /** The sort key `(str(path), line, column)`, compared as a tuple. */
  predicate KeyLess(v: Violation, w: Violation) {
    || LexLess(v.path, w.path)
    || (v.path == w.path && (v.line < w.line || (v.line == w.line && v.column < w.column)))
  }

  lemma KeyLessAsymmetric(v: Violation, w: Violation)
    ensures KeyLess(v, w) ==> !KeyLess(w, v)
  {
    LexLessAsymmetric(v.path, w.path);
    LexLessAsymmetric(w.path, v.path);
    if v.path == w.path {
      LexLessIrreflexive(v.path);
    }
  }

  lemma {:induction false} LexLessIrreflexive(a: string)
    ensures !LexLess(a, a)
    decreases |a|
  {
    if a != [] {
      LexLessIrreflexive(a[1..]);
    }
  }

  lemma KeyLessTransitive(u: Violation, v: Violation, w: Violation)
    requires KeyLess(u, v) && KeyLess(v, w)
    ensures KeyLess(u, w)
  {
    if LexLess(u.path, v.path) && LexLess(v.path, w.path) {
      LexLessTransitive(u.path, v.path, w.path);
    }
  }

  /** No violation is printed after one with a greater key. */
  predicate SortedByKey(s: seq<Violation>) {
    forall i, j :: 0 <= i < j < |s| ==> !KeyLess(s[j], s[i])
  }

  /** `x` placed after every element whose key is not greater than its own. */
  function Insert(x: Violation, s: seq<Violation>): (r: seq<Violation>)
    ensures |r| == |s| + 1
    decreases |s|
  {
    if s == [] then [x]
    else if KeyLess(x, s[0]) then [x] + s
    else [s[0]] + Insert(x, s[1..])
  }

  /** `sorted(violations, key=...)`, as a stable insertion sort. */
  function SortByKey(s: seq<Violation>): (r: seq<Violation>)
    ensures |r| == |s|
    decreases |s|
  {
    if s == [] then [] else Insert(s[|s| - 1], SortByKey(s[..|s| - 1]))
  }

  lemma {:induction false} InsertPermutes(x: Violation, s: seq<Violation>)
    ensures multiset(Insert(x, s)) == multiset(s) + multiset{x}
    decreases |s|
  {
    if s != [] && !KeyLess(x, s[0]) {
      InsertPermutes(x, s[1..]);
      assert s == [s[0]] + s[1..];
    }
  }

  /** A key smaller than the first of a sorted sequence goes in front. */
  lemma InsertFront(x: Violation, s: seq<Violation>)
    requires SortedByKey(s) && s != [] && KeyLess(x, s[0])
    ensures SortedByKey([x] + s)
  {
    var r := [x] + s;
    forall j | 1 <= j < |r|
      ensures !KeyLess(r[j], x)
    {
      KeyLessAsymmetric(x, s[j - 1]);
      if j > 1 && KeyLess(s[j - 1], x) {
        KeyLessTransitive(s[j - 1], x, s[0]);
      }
    }
  }

  /** Every element of `Insert(x, s)` is `x` or an element of `s`. */
  lemma InsertFrom(x: Violation, s: seq<Violation>)
    ensures forall y :: y in Insert(x, s) ==> y == x || y in s
  {
    InsertPermutes(x, s);
    forall y | y in Insert(x, s)
      ensures y == x || y in s
    {
      assert y in multiset(Insert(x, s));
    }
  }

  /** Otherwise `x` goes somewhere after the first, which stays first. */
  lemma InsertBehind(x: Violation, s: seq<Violation>)
    requires SortedByKey(s) && s != [] && !KeyLess(x, s[0]) && SortedByKey(Insert(x, s[1..]))
    ensures SortedByKey([s[0]] + Insert(x, s[1..]))
  {
    var rest := Insert(x, s[1..]);
    InsertFrom(x, s[1..]);
    forall y | y in rest
      ensures !KeyLess(y, s[0])
    {
      if y != x {
        var k :| 0 <= k < |s[1..]| && s[1..][k] == y;
        assert s[k + 1] == y;
      }
    }
    ConsSorted(s[0], rest);
  }

  /** A sorted sequence stays sorted behind an element no later element precedes. */
  lemma ConsSorted(a: Violation, rest: seq<Violation>)
    requires SortedByKey(rest)
    requires forall y :: y in rest ==> !KeyLess(y, a)
    ensures SortedByKey([a] + rest)
  {
    var r := [a] + rest;
    forall i, j | 0 <= i < j < |r|
      ensures !KeyLess(r[j], r[i])
    {
      assert r[j] == rest[j - 1];
      if i > 0 {
        assert r[i] == rest[i - 1];
      }
    }
  }

  lemma {:induction false} InsertSorted(x: Violation, s: seq<Violation>)
    requires SortedByKey(s)
    ensures SortedByKey(Insert(x, s))
    decreases |s|
  {
    if s != [] {
      if KeyLess(x, s[0]) {
        InsertFront(x, s);
      } else {
        InsertSorted(x, s[1..]);
        InsertBehind(x, s);
      }
    }
  }

  /** The printed order is sorted by key and holds exactly the registered violations. */
  lemma {:induction false} SortByKeyCorrect(s: seq<Violation>)
    ensures SortedByKey(SortByKey(s)) && multiset(SortByKey(s)) == multiset(s)
    decreases |s|
  {
    if s != [] {
      var init := s[..|s| - 1];
      SortByKeyCorrect(init);
      InsertSorted(s[|s| - 1], SortByKey(init));
      InsertPermutes(s[|s| - 1], SortByKey(init));
      assert s == init + [s[|s| - 1]];
    }
  }

  // ---------------------------------------------------------------------
  // The auto-fix summary
  // ---------------------------------------------------------------------

  /** The three messages `print_fix_summary` can print. */
  datatype FixKind = AllFixed | PartlyFixed | NoneFixed

  /**
   * The message chosen for `fixed` and `remaining`: all fixed, partly fixed,
   * or none fixed; no message when there is neither.
   */
  function FixChoice(fixed: int, remaining: int): (r: Option<FixKind>)
    ensures r == Some(AllFixed) <==> fixed > 0 && remaining == 0
    ensures r == Some(PartlyFixed) <==> fixed > 0 && remaining > 0
    ensures r == Some(NoneFixed) <==> fixed <= 0 && remaining > 0
    ensures r == None <==> remaining <= 0 && (fixed <= 0 || remaining < 0)
  {
    if fixed > 0 && remaining == 0 then Some(AllFixed)
    else if fixed > 0 && remaining > 0 then Some(PartlyFixed)
    else if remaining > 0 then Some(NoneFixed)
    else None
  }

  /** The plural suffix the messages use. */
  function Plural(n: int): string {
    if n != 1 then "s" else ""
  }

  /** The icon of each message: a check mark, a warning sign, a cross. */
  function FixIcon(kind: FixKind): string {
    match kind
    case AllFixed => "\U{2713}"
    case PartlyFixed => "\U{26A0}"
    case NoneFixed => "\U{2179}"
  }

  /** The icon's colour: green when everything was fixed, yellow otherwise. */
  function FixColour(kind: FixKind): string {
    if kind == AllFixed then Green else Yellow
  }

  /** The words after the icon. */
  function FixText(kind: FixKind, fixed: int, remaining: int): string {
    match kind
    case AllFixed => " Fixed " + IntToString(fixed) + " violation" + Plural(fixed)
    case PartlyFixed => " Fixed " + IntToString(fixed) + " violation" + Plural(fixed) + ", " + IntToString(remaining) + " remaining"
    case NoneFixed => " Could not auto-fix " + IntToString(remaining) + " violation" + Plural(remaining)
  }

  /** The icon, coloured and bold when colour is on. */
  function FixIconShown(kind: FixKind, colour: bool): string {
    if colour then FixColour(kind) + Paint(Bold, FixIcon(kind)) else FixIcon(kind)
  }

  /** The message: a line break, the icon, then the words. */
  function FixMessage(kind: FixKind, fixed: int, remaining: int, colour: bool): string {
    "\n" + FixIconShown(kind, colour) + FixText(kind, fixed, remaining)
  }

  lemma FixEscapesWellFormed()
    ensures IsEscape(Green) && IsEscape(Yellow) && IsEscape(Bold) && IsEscape(Reset)
  {
    assert Green[1..|Green| - 1] == "[32";
    assert Yellow[1..|Yellow| - 1] == "[33";
    assert Bold[1..|Bold| - 1] == "[1";
    assert Reset[1..|Reset| - 1] == "[0";
  }

  lemma FixWordsNoEsc()
    ensures Esc !in " Fixed " && Esc !in " violation" && Esc !in ", " && Esc !in " remaining"
    ensures Esc !in " Could not auto-fix " && Esc !in "s" && Esc !in ""
  {
  }

  /** The words of a message hold no ESC, and neither does its icon. */
  lemma FixTextNoEsc(kind: FixKind, fixed: int, remaining: int)
    ensures Esc !in FixText(kind, fixed, remaining) && Esc !in FixIcon(kind)
  {
    FixWordsNoEsc();
    var f := IntToString(fixed);
    var m := IntToString(remaining);
    IntToStringNoEsc(fixed);
    IntToStringNoEsc(remaining);
    assert Esc !in Plural(fixed) && Esc !in Plural(remaining);
    assert Esc !in " Fixed " + f + " violation" + Plural(fixed);
  }

  /** A line break, a coloured bold icon, then text without ESC, are shown as the line break, the icon and the text. */
  lemma StripIconLine(colourCode: string, icon: string, text: string)
    requires IsEscape(colourCode) && Esc !in icon && Esc !in text
    ensures StripAnsi("\n" + (colourCode + Paint(Bold, icon)) + text) == "\n" + icon + text
  {
    FixEscapesWellFormed();
    SeparatorsNoEsc();
    var rest := Paint(Bold, icon) + text;
    StripAnsiKeepsText(text, []);
    assert text + [] == text;
    StripPainted(Bold, icon, text);
    StripAnsiDropsEscape(colourCode, rest);
    assert "\n" + (colourCode + Paint(Bold, icon)) + text == "\n" + (colourCode + rest);
    StripAnsiKeepsText("\n", colourCode + rest);
  }

  /** Colour changes nothing a terminal shows of a fix message. */
  lemma FixColourShowsPlainMessage(kind: FixKind, fixed: int, remaining: int)
    ensures StripAnsi(FixMessage(kind, fixed, remaining, true)) == FixMessage(kind, fixed, remaining, false)
  {
    FixEscapesWellFormed();
    FixTextNoEsc(kind, fixed, remaining);
    StripIconLine(FixColour(kind), FixIcon(kind), FixText(kind, fixed, remaining));
  }

  // ---------------------------------------------------------------------
  // The reporter
  // ---------------------------------------------------------------------

  /**
   * `Reporter`: the violations and the runtime errors registered so far,
   * in order, and the colour and quiet settings fixed at construction
   * (the caller resolves "colour when the output is a terminal").
   */
  class Reporter {
    var violations: seq<Violation>
    var errors: seq<string>
    const colour: bool
    const quiet: bool

    constructor(colour: bool, quiet: bool)
      ensures violations == [] && errors == []
      ensures this.colour == colour && this.quiet == quiet
    {
      violations := [];
      errors := [];
      this.colour := colour;
      this.quiet := quiet;
    }

    /** `add_violation`: one more violation at the end; the errors are unchanged. */
    method AddViolation(v: Violation)
      modifies this
      ensures violations == old(violations) + [v] && errors == old(errors)
    {
      violations := violations + [v];
    }

    /** `add_violations`: the given violations at the end, in order; the errors are unchanged. */
    method AddViolations(vs: seq<Violation>)
      modifies this
      ensures violations == old(violations) + vs && errors == old(errors)
    {
      violations := violations + vs;
    }

    /** `add_error`: one more runtime error at the end; the violations are unchanged. */
    method AddError(message: string)
      modifies this
      ensures errors == old(errors) + [message] && violations == old(violations)
    {
      errors := errors + [message];
    }

    /** `is_clean`: nothing registered at all. */
    function IsClean(): (r: bool)
      reads this
      ensures r <==> |violations| + |errors| == 0
    {
      |violations| == 0 && |errors| == 0
    }

    /** `exit_code` as written: 2 when there is an error, 0 otherwise, violations or not. */
    function ExitCode(): (r: int)
      reads this
      ensures r == 2 <==> errors != []
      ensures r == 0 <==> errors == []
    {
      if errors != [] then 2 else if violations != [] then 0 else 0
    }

    /** The exit code the documentation promises: 2 for errors, 1 for violations only, 0 when clean. */
    function IntendedExitCode(): (r: int)
      reads this
      ensures r == 0 <==> IsClean()
      ensures r == 1 <==> errors == [] && violations != []
      ensures r == 2 <==> errors != []
    {
      if errors != [] then 2 else if violations != [] then 1 else 0
    }

    /** `_format_violation`: the coloured line when colour is on, the plain line otherwise. */
    function FormatViolation(v: Violation): (r: string)
      reads this
      ensures !colour ==> r == PlainLine(v)
      ensures colour ==> r == ColourLine(v) && Contains(r, Paint(CodeColour(v.code), v.code))
      ensures colour && Esc !in v.path && Esc !in v.code && Esc !in v.message ==> StripAnsi(r) == PlainLine(v)
    {
      if colour then
        CodePainted(v);
        assert Esc !in v.path && Esc !in v.code && Esc !in v.message ==> StripAnsi(ColourLine(v)) == PlainLine(v) by {
          if Esc !in v.path && Esc !in v.code && Esc !in v.message {
            ColourShowsPlainLine(v);
          }
        }
        ColourLine(v)
      else PlainLine(v)
    }

    /** `_generate_summary`: one pass over the violations, counting per tool and collecting the paths. */
    method GenerateSummary() returns (summary: ViolationSummary)
      ensures summary == SummaryOf(violations)
      ensures summary.total == |violations| && Total(summary.byTool) == |violations|
      ensures summary.filesAffected <= summary.total
    {
      var byTool: Tally := [];
      var files: set<string> := {};
      for i := 0 to |violations|
        invariant byTool == TallyOf(violations[..i]) && files == PathsOf(violations[..i])
      {
        var v := violations[i];
        byTool := Bump(byTool, v.tool);
        files := files + {v.path};
        assert violations[..i + 1][..i] == violations[..i];
      }
      assert violations[..|violations|] == violations;
      summary := ViolationSummary(|violations|, byTool, |files|);
      SummaryConsistent(violations);
    }

    /** The order `print` writes the violations in. */
    function PrintOrder(): (r: seq<Violation>)
      reads this
      ensures SortedByKey(r) && multiset(r) == multiset(violations)
    {
      SortByKeyCorrect(violations);
      SortByKey(violations)
    }

    /** Whether `print` goes on to the summary: not quiet, and something registered. */
    function ShowsSummary(): (r: bool)
      reads this
      ensures r <==> !quiet && !IsClean()
    {
      !quiet && (violations != [] || errors != [])
    }

    /** `print_fix_summary`: nothing in quiet mode, otherwise the chosen message, if any. */
    function FixSummary(fixed: int, remaining: int): (r: Option<string>)
      reads this
      ensures quiet ==> r == None
      ensures !quiet ==> (r.Some? <==> FixChoice(fixed, remaining).Some?)
      ensures r.Some? ==> r.value == FixMessage(FixChoice(fixed, remaining).value, fixed, remaining, colour)
    {
      if quiet then None
      else
        match FixChoice(fixed, remaining)
        case None => None
        case Some(kind) => Some(FixMessage(kind, fixed, remaining, colour))
    }
  }

  /** With violations and no errors, the exit code as written is 0, where the documentation promises 1. */
  lemma ExitCodeIgnoresViolations(r: Reporter)
    requires r.errors == [] && r.violations != []
    ensures r.ExitCode() == 0 && r.IntendedExitCode() == 1
  {
  }

  /** A reporter that only ever had violations added exits 0 while not clean. */
  method ViolationsOnlyExitZero(v: Violation) returns (code: int, clean: bool)
    ensures code == 0 && !clean
  {
    var r := new Reporter(false, false);
    r.AddViolation(v);
    code := r.ExitCode();
    clean := r.IsClean();
  }
}
