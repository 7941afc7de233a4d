/**
 * The few operations of Python's `str` that the checker relies on, defined
 * once on `seq<char>`: `isspace`, `strip`/`lstrip`/`rstrip`, `startswith`,
 * `endswith`, `find` and `in`, `split` on one separator character,
 * `sep.join`, `splitlines()` and `int()`/`str()` on decimal integers.
 * Every other module uses these definitions.
 */
module PyStr {
  import opened Wrappers

  // ---------------------------------------------------------------------
  // Character classes
  // ---------------------------------------------------------------------

  /** The characters for which Python's `str.isspace()` holds. */
  predicate IsSpace(c: char) {
    if c <= ' ' then ('\t' <= c <= '\r') || '\U{1C}' <= c
    else '\U{85}' <= c && IsWideSpace(c)
  }

  /** The whitespace characters above the ASCII range. */
  predicate IsWideSpace(c: char) {
    c == '\U{85}' || c == '\U{A0}' || c == '\U{1680}' || ('\U{2000}' <= c <= '\U{200A}')
    || c == '\U{2028}' || c == '\U{2029}' || c == '\U{202F}' || c == '\U{205F}' || c == '\U{3000}'
  }

  /** The characters at which Python's `str.splitlines()` ends a line. */
  predicate IsLineBreak(c: char) {
    ('\n' <= c <= '\r') || ('\U{1C}' <= c <= '\U{1E}') || c == '\U{85}'
    || c == '\U{2028}' || c == '\U{2029}'
  }

  predicate IsDigit(c: char) {
    '0' <= c <= '9'
  }

  /** Every character of `s` is whitespace (vacuously so for ""). */
  predicate IsBlank(s: string) {
    forall i :: 0 <= i < |s| ==> IsSpace(s[i])
  }

  // ---------------------------------------------------------------------
  // strip, rstrip
  // ---------------------------------------------------------------------

  /** The index of the first non-whitespace character of `s` at or after `i`, or `|s|`. */
  function SkipSpace(s: string, i: nat): (r: nat)
    requires i <= |s|
    ensures i <= r <= |s|
    ensures r < |s| ==> !IsSpace(s[r])
    decreases |s| - i
  {
    if i < |s| && IsSpace(s[i]) then SkipSpace(s, i + 1) else i
  }

  /** The end of `s[..j]` once its trailing whitespace is dropped. */
  function TrimEnd(s: string, j: nat): (r: nat)
    requires j <= |s|
    ensures r <= j
    ensures r > 0 ==> !IsSpace(s[r - 1])
    decreases j
  {
    if j > 0 && IsSpace(s[j - 1]) then TrimEnd(s, j - 1) else j
  }

  /** What `SkipSpace` skips is whitespace. */
  lemma {:induction false} SkipSpaceSkipsSpace(s: string, i: nat)
    requires i <= |s|
    ensures forall k :: i <= k < SkipSpace(s, i) ==> IsSpace(s[k])
    decreases |s| - i
  {
    if i < |s| && IsSpace(s[i]) {
      SkipSpaceSkipsSpace(s, i + 1);
    }
  }

  /** What `TrimEnd` drops is whitespace. */
  lemma {:induction false} TrimEndDropsSpace(s: string, j: nat)
    requires j <= |s|
    ensures forall k :: TrimEnd(s, j) <= k < j ==> IsSpace(s[k])
    decreases j
  {
    if j > 0 && IsSpace(s[j - 1]) {
      TrimEndDropsSpace(s, j - 1);
    }
  }

  /** `s.rstrip()`: `s` without its trailing whitespace. */
  function RStrip(s: string): (r: string)
    ensures |r| <= |s|
    ensures r == [] || !IsSpace(r[|r| - 1])
  {
    s[..TrimEnd(s, |s|)]
  }

  /**
   * `s.strip()`: `s` without leading and trailing whitespace, the text
   * between the first and the last non-whitespace character.
   */
  function Strip(s: string): (r: string)
    ensures |r| <= |s|
    ensures r == [] || (!IsSpace(r[0]) && !IsSpace(r[|r| - 1]))
  {
    var a := SkipSpace(s, 0);
    var b := TrimEnd(s, |s|);
    if a < b then s[a..b] else []
  }

  /** `strip` leaves nothing exactly when the text is all whitespace. */
  lemma StripEmptyIffBlank(s: string)
    ensures Strip(s) == [] <==> IsBlank(s)
  {
    var a := SkipSpace(s, 0);
    SkipSpaceSkipsSpace(s, 0);
    TrimEndDropsSpace(s, |s|);
    if a < |s| {
      assert !IsSpace(s[a]);
      assert a < TrimEnd(s, |s|);
    }
  }

  /** What `rstrip` removes is whitespace. */
  lemma RStripRemovesSpace(s: string)
    ensures s[..|RStrip(s)|] == RStrip(s)
    ensures forall i :: |RStrip(s)| <= i < |s| ==> IsSpace(s[i])
  {
    TrimEndDropsSpace(s, |s|);
  }

  // ---------------------------------------------------------------------
  // startswith, endswith, find, in
  // ---------------------------------------------------------------------

  /** `s.startswith(p)`. */
  predicate StartsWith(s: string, p: string) {
    |p| <= |s| && s[..|p|] == p
  }

  /** `s.endswith(p)`. */
  predicate EndsWith(s: string, p: string) {
    |p| <= |s| && s[|s| - |p|..] == p
  }

  /** `sub` occurs in `s` starting at index `k`. */
  predicate OccursAt(s: string, sub: string, k: int) {
    0 <= k && k + |sub| <= |s| && s[k..k + |sub|] == sub
  }

  /** `s.find(sub, i)` for `0 <= i`: the first occurrence at or after `i`, or -1. */
  function FindFrom(s: string, sub: string, i: nat): (r: int)
    ensures r == -1 || (i <= r && OccursAt(s, sub, r))
    decreases |s| + 1 - i
  {
    if i + |sub| > |s| then -1
    else if s[i..i + |sub|] == sub then i
    else FindFrom(s, sub, i + 1)
  }

  /** No occurrence lies between `i` and the one `FindFrom` reports. */
  lemma {:induction false} FindFromFirst(s: string, sub: string, i: nat)
    ensures forall k :: i <= k && (FindFrom(s, sub, i) == -1 || k < FindFrom(s, sub, i)) ==> !OccursAt(s, sub, k)
    decreases |s| + 1 - i
  {
    if i + |sub| <= |s| && s[i..i + |sub|] != sub {
      FindFromFirst(s, sub, i + 1);
    }
  }

  /** `s.find(sub)`: the lowest index at which `sub` occurs, or -1. */
  function Find(s: string, sub: string): (r: int)
    ensures r == -1 || OccursAt(s, sub, r)
  {
    FindFrom(s, sub, 0)
  }

  /** `Find` reports the lowest occurrence, and -1 only when there is none. */
  lemma FindFirst(s: string, sub: string)
    ensures forall k :: 0 <= k && (Find(s, sub) == -1 || k < Find(s, sub)) ==> !OccursAt(s, sub, k)
  {
    FindFromFirst(s, sub, 0);
  }

  /** `sub in s`. */
  predicate Contains(s: string, sub: string) {
    Find(s, sub) != -1
  }

  lemma ContainsAt(s: string, sub: string, k: int)
    requires OccursAt(s, sub, k)
    ensures Contains(s, sub)
  {
    FindFirst(s, sub);
  }

  /** An occurrence inside a slice is an occurrence in the whole text, shifted by the slice's start. */
  lemma OccursInSlice(s: string, a: nat, b: nat, sub: string, k: int)
    requires a <= b <= |s| && OccursAt(s[a..b], sub, k)
    ensures OccursAt(s, sub, a + k)
  {
    var t := s[a..b];
    var u := s[a + k..a + k + |sub|];
    assert forall j :: 0 <= j < |sub| ==> u[j] == t[k..k + |sub|][j];
    assert u == t[k..k + |sub|];
  }

  /** A text contains whatever its strip contains. */
  lemma StripContainment(s: string, sub: string)
    requires Contains(Strip(s), sub)
    ensures Contains(s, sub)
  {
    var t := Strip(s);
    var at := Find(t, sub);
    var a := SkipSpace(s, 0);
    var b := TrimEnd(s, |s|);
    if a < b {
      OccursInSlice(s, a, b, sub, at);
      ContainsAt(s, sub, a + at);
    } else {
      assert OccursAt(s, sub, 0);
      ContainsAt(s, sub, 0);
    }
  }

  /** The text up to the end of the first occurrence of `sub` is the text before it followed by `sub`. */
  lemma FoundPrefix(raw: string, sub: string)
    requires Contains(raw, sub)
    ensures var at := Find(raw, sub);
            var k := at + |sub|;
            && k <= |raw| && raw[..at] + sub == raw[..k] && EndsWith(raw[..k], sub)
  {
    var at := Find(raw, sub);
    var k := at + |sub|;
    assert raw[..at] + sub == raw[..k];
    assert raw[..k][k - |sub|..] == sub;
  }

  /** A text contains each of its middle pieces. */
  lemma ContainsMiddle(p: string, sub: string, q: string)
    ensures Contains(p + sub + q, sub)
  {
    var s := p + sub + q;
    assert s[|p|..|p| + |sub|] == sub;
    ContainsAt(s, sub, |p|);
  }

  /** Whatever a text contains, the text with anything in front still contains. */
  lemma ContainsPrefixed(p: string, s: string, sub: string)
    requires Contains(s, sub)
    ensures Contains(p + s, sub)
  {
    var at := Find(s, sub);
    assert (p + s)[|p| + at..|p| + at + |sub|] == s[at..at + |sub|];
    ContainsAt(p + s, sub, |p| + at);
  }

  // ---------------------------------------------------------------------
  // split on one separator character, and join
  // ---------------------------------------------------------------------

  /** The index of the first `c` in `s`, or `|s|` when there is none. */
  function IndexOfChar(s: string, c: char): (r: nat)
    ensures r <= |s|
    ensures r < |s| ==> s[r] == c
    ensures forall k :: 0 <= k < r ==> s[k] != c
    decreases |s|
  {
    if s == [] then 0
    else if s[0] == c then 0
    else 1 + IndexOfChar(s[1..], c)
  }

  /** `s.split(sep)` for a one-character separator: never empty. */
  function Split(s: string, sep: char): (r: seq<string>)
    ensures |r| >= 1
    decreases |s|
  {
    var k := IndexOfChar(s, sep);
    if k == |s| then [s] else [s[..k]] + Split(s[k + 1..], sep)
  }

  /** `sep.join(parts)`. */
  function Join(sep: char, parts: seq<string>): string
    decreases |parts|
  {
    if |parts| == 0 then ""
    else if |parts| == 1 then parts[0]
    else parts[0] + [sep] + Join(sep, parts[1..])
  }

  /** Splitting and re-joining on the same separator gives back the text. */
  lemma {:induction false} JoinSplit(s: string, sep: char)
    ensures Join(sep, Split(s, sep)) == s
    decreases |s|
  {
    var k := IndexOfChar(s, sep);
    if k < |s| {
      var rest := s[k + 1..];
      var parts := Split(rest, sep);
      assert Split(s, sep) == [s[..k]] + parts;
      assert Join(sep, [s[..k]] + parts) == s[..k] + [sep] + Join(sep, parts) by {
        assert ([s[..k]] + parts)[1..] == parts;
      }
      JoinSplit(rest, sep);
      assert s == s[..k] + [sep] + rest;
    }
  }

  /** A text without `sep` splits into itself alone. */
  lemma SplitNoSep(s: string, sep: char)
    requires sep !in s
    ensures Split(s, sep) == [s]
  {
  }

  /** A part without `sep`, the separator, then the rest: the part comes off the front. */
  lemma {:induction false} SplitCons(a: string, sep: char, rest: string)
    requires sep !in a
    ensures Split(a + [sep] + rest, sep) == [a] + Split(rest, sep)
  {
    var s := a + [sep] + rest;
    var k := IndexOfChar(s, sep);
    assert s[|a|] == sep;
    assert forall j :: 0 <= j < |a| ==> s[j] == a[j];
    assert k == |a|;
    assert s[..k] == a;
    assert s[k + 1..] == rest;
  }

  // ---------------------------------------------------------------------
  // splitlines
  // ---------------------------------------------------------------------

  /** The index of the first line-break character of `s`, or `|s|`. */
  function FirstLineBreak(s: string): (r: nat)
    ensures r <= |s|
    ensures r < |s| ==> IsLineBreak(s[r])
    ensures forall k :: 0 <= k < r ==> !IsLineBreak(s[k])
    decreases |s|
  {
    if s == [] then 0
    else if IsLineBreak(s[0]) then 0
    else 1 + FirstLineBreak(s[1..])
  }

  /**
   * `s.splitlines()` (keepends=False): `\r\n` ends one line, a final line
   * break does not start an empty line, and "" has no lines.
   */
  function SplitLines(s: string): (r: seq<string>)
    ensures r == [] <==> s == []
    ensures forall k, j :: 0 <= k < |r| && 0 <= j < |r[k]| ==> !IsLineBreak(r[k][j])
    ensures (s != [] && forall j :: 0 <= j < |s| ==> !IsLineBreak(s[j])) ==> r == [s]
    ensures |r| <= |s|
    decreases |s|
  {
    if s == [] then []
    else
      var k := FirstLineBreak(s);
      if k == |s| then [s]
      else
        var w := if s[k] == '\r' && k + 1 < |s| && s[k + 1] == '\n' then 2 else 1;
        [s[..k]] + SplitLines(s[k + w..])
  }

  // ---------------------------------------------------------------------
  // int() and str() on decimal integers
  // ---------------------------------------------------------------------

  function DigitChar(d: nat): (c: char)
    requires d < 10
    ensures IsDigit(c) && c as int - '0' as int == d
  {
    (d + '0' as int) as char
  }

  /** `str(n)` for a natural number: decimal digits, no leading zero. */
  function NatToString(n: nat): (r: string)
    ensures |r| >= 1 && (forall i :: 0 <= i < |r| ==> IsDigit(r[i]))
    ensures r[0] == '0' ==> n == 0
    decreases n
  {
    if n < 10 then [DigitChar(n)] else NatToString(n / 10) + [DigitChar(n % 10)]
  }

  /** `str(i)` for an integer. */
  function IntToString(i: int): string {
    if i < 0 then "-" + NatToString(-i) else NatToString(i)
  }

  /** The value of decimal digits, with any underscores among them skipped. */
  function DigitsValue(s: string): nat
    requires forall i :: 0 <= i < |s| ==> IsDigit(s[i]) || s[i] == '_'
    decreases |s|
  {
    if s == [] then 0
    else if s[|s| - 1] == '_' then DigitsValue(s[..|s| - 1])
    else
      assert IsDigit(s[|s| - 1]);
      DigitsValue(s[..|s| - 1]) * 10 + (s[|s| - 1] as int - '0' as int)
  }

  /** Reading back the digits `str` writes gives the number. */
  lemma {:induction false} DigitsValueOfNat(n: nat)
    ensures DigitsValue(NatToString(n)) == n
    decreases n
  {
    if n >= 10 {
      var s := NatToString(n);
      DigitsValueOfNat(n / 10);
      assert s[..|s| - 1] == NatToString(n / 10);
    }
  }

  /**
   * The body `int()` accepts after the sign: digits, with single
   * underscores allowed between two digits.
   */
  predicate IsDigitGroup(s: string) {
    && |s| >= 1 && IsDigit(s[0]) && IsDigit(s[|s| - 1])
    && (forall i :: 0 <= i < |s| ==> IsDigit(s[i]) || s[i] == '_')
    && (forall i :: 0 <= i < |s| - 1 ==> !UnderscorePairAt(s, i))
  }

  predicate UnderscorePairAt(s: string, i: int) {
    0 <= i < |s| - 1 && s[i] == '_' && s[i + 1] == '_'
  }

  /** `int()` on text that is already stripped: one optional sign, then a digit group. */
  function ParseStripped(t: string): Option<int> {
    if |t| > 0 && (t[0] == '+' || t[0] == '-') then
      if IsDigitGroup(t[1..]) then
        var v: int := DigitsValue(t[1..]);
        Some(if t[0] == '-' then -v else v)
      else None
    else if IsDigitGroup(t) then Some(DigitsValue(t))
    else None
  }

  /**
   * `int(s)` for base 10: surrounding whitespace is ignored, one optional
   * sign, then a digit group; anything else raises ValueError (None).
   */
  function ParseInt(s: string): (r: Option<int>)
    ensures r.Some? ==> Strip(s) != []
  {
    ParseStripped(Strip(s))
  }

  /** A text that neither starts nor ends with whitespace is its own strip. */
  lemma StripUnchanged(s: string)
    requires s != [] && !IsSpace(s[0]) && !IsSpace(s[|s| - 1])
    ensures Strip(s) == s
  {
  }

  /** Stripping a padded text gives the text when its ends are not whitespace. */
  lemma StripPadded(b: string, x: string, c: string)
    requires IsBlank(b) && IsBlank(c) && x != [] && !IsSpace(x[0]) && !IsSpace(x[|x| - 1])
    ensures Strip(b + x + c) == x
  {
    var t := b + x + c;
    var i := SkipSpace(t, 0);
    var j := TrimEnd(t, |t|);
    SkipSpaceSkipsSpace(t, 0);
    TrimEndDropsSpace(t, |t|);
    assert t[|b|] == x[0] && t[|b| + |x| - 1] == x[|x| - 1];
    assert forall k :: 0 <= k < |b| ==> t[k] == b[k];
    assert forall k :: |b| + |x| <= k < |t| ==> t[k] == c[k - |b| - |x|];
    assert t[i..j] == x;
  }

  /** Leading whitespace before a text that starts and ends with non-space is what `strip()` removes. */
  lemma StripLeading(b: string, x: string)
    requires IsBlank(b) && x != [] && !IsSpace(x[0]) && !IsSpace(x[|x| - 1])
    ensures Strip(b + x) == x
  {
    assert b + x == b + x + [];
    StripPadded(b, x, []);
  }

  /** Stripping twice is stripping once. */
  lemma StripIdempotent(s: string)
    ensures Strip(Strip(s)) == Strip(s)
  {
    var t := Strip(s);
    if t != [] {
      assert Strip(t) == t by { StripUnchanged(t); }
    }
  }

  /** On text that is its own strip, `int()` reads the text as it stands. */
  lemma ParseUnstripped(s: string)
    requires Strip(s) == s
    ensures ParseInt(s) == ParseStripped(s)
  {
  }

  /** Unsigned decimal digits are read as their value. */
  lemma ParseStrippedDigits(d: string)
    requires |d| >= 1 && forall i :: 0 <= i < |d| ==> IsDigit(d[i])
    ensures ParseStripped(d) == Some(DigitsValue(d))
  {
    assert d[0] != '+' && d[0] != '-';
  }

  /** A minus sign before a digit group negates the group's value. */
  lemma ParseMinusGroup(g: string)
    requires IsDigitGroup(g)
    ensures ParseStripped("-" + g) == Some(-(DigitsValue(g) as int))
  {
    var t := "-" + g;
    assert t[0] == '-' && t[1..] == g;
  }

  /** `str(i)` is read back by the sign-and-digits reading. */
  lemma IntToStringStripped(i: int)
    ensures ParseStripped(IntToString(i)) == Some(i)
  {
    var n: nat := if i < 0 then -i else i;
    var d := NatToString(n);
    DigitsValueOfNat(n);
    if i < 0 {
      assert IntToString(i) == "-" + d;
      ParseMinusGroup(d);
    } else {
      assert IntToString(i) == d;
      ParseStrippedDigits(d);
    }
  }

  /** `str(i)` neither starts nor ends with whitespace. */
  lemma IntToStringUnpadded(i: int)
    ensures var s := IntToString(i); s != [] && !IsSpace(s[0]) && !IsSpace(s[|s| - 1])
  {
    var n: nat := if i < 0 then -i else i;
    var d := NatToString(n);
    assert IsDigit(d[0]) && IsDigit(d[|d| - 1]);
    if i < 0 {
      assert IntToString(i) == "-" + d;
    }
  }

  /** `int(str(i)) == i`: the integer text round trip. */
  lemma IntRoundTrip(i: int)
    ensures ParseInt(IntToString(i)) == Some(i)
  {
    var s := IntToString(i);
    IntToStringUnpadded(i);
    StripUnchanged(s);
    ParseUnstripped(s);
    IntToStringStripped(i);
  }

  /** A text whose every character is a digit is read as a number. */
  lemma ParseDigits(s: string)
    requires |s| >= 1 && forall i :: 0 <= i < |s| ==> IsDigit(s[i])
    ensures ParseInt(s) == Some(DigitsValue(s))
  {
    StripUnchanged(s);
    ParseUnstripped(s);
    ParseStrippedDigits(s);
  }
}
