/** The Python string operations the modelled code relies on, over sequences of Unicode scalar values. */
module Text {
  import opened Results

  // ----- character classes -----

  /** str.isspace for one character. */
  predicate IsSpace(c: char) {
    var n := c as int;
    || 0x09 <= n <= 0x0d
    || 0x1c <= n <= 0x20
    || n == 0x85 || n == 0xa0 || n == 0x1680
    || 0x2000 <= n <= 0x200a
    || n == 0x2028 || n == 0x2029 || n == 0x202f || n == 0x205f || n == 0x3000
  }

  /** The characters at which str.splitlines ends a line. */
  predicate IsLineBreak(c: char) {
    var n := c as int;
    || 0x0a <= n <= 0x0d
    || 0x1c <= n <= 0x1e
    || n == 0x85 || n == 0x2028 || n == 0x2029
  }

  predicate NoneOf(s: string, p: char -> bool) {
    forall i :: 0 <= i < |s| ==> !p(s[i])
  }

  // ----- prefixes, suffixes, substrings -----

  predicate StartsWith(s: string, prefix: string) {
    |prefix| <= |s| && s[..|prefix|] == prefix
  }

  predicate EndsWith(s: string, suffix: string) {
    |suffix| <= |s| && s[|s| - |suffix|..] == suffix
  }

  /** Python's `needle in haystack`. */
  predicate Contains(haystack: string, needle: string) {
    exists i :: 0 <= i <= |haystack| && StartsWith(haystack[i..], needle)
  }

  /** The index of the first character satisfying p, or the length. */
  function FirstIndex(s: string, p: char -> bool): (n: nat)
    ensures n <= |s|
    ensures forall i :: 0 <= i < n ==> !p(s[i])
    ensures n < |s| ==> p(s[n])
  {
    if s == "" || p(s[0]) then 0 else 1 + FirstIndex(s[1..], p)
  }

  lemma {:induction false} FirstIndexAfter(a: string, b: string, p: char -> bool)
    requires NoneOf(a, p) && b != "" && p(b[0])
    ensures FirstIndex(a + b, p) == |a|
  {
    if a == "" {
      assert a + b == b;
    } else {
      assert (a + b)[1..] == a[1..] + b;
      FirstIndexAfter(a[1..], b, p);
    }
  }

  // ----- strip -----

  function LStrip(s: string): (r: string)
    ensures r != "" ==> !IsSpace(r[0])
    ensures |r| <= |s|
  {
    if s != "" && IsSpace(s[0]) then LStrip(s[1..]) else s
  }

  function RStrip(s: string): (r: string)
    ensures r != "" ==> !IsSpace(r[|r| - 1])
    ensures |r| <= |s|
  {
    if s != "" && IsSpace(s[|s| - 1]) then RStrip(s[..|s| - 1]) else s
  }

  function Strip(s: string): string {
    RStrip(LStrip(s))
  }

  /** A text that starts and ends with visible characters. */
  predicate Trimmed(s: string) {
    s != "" ==> !IsSpace(s[0]) && !IsSpace(s[|s| - 1])
  }

  function Spaces(n: nat): (s: string)
    ensures |s| == n
    ensures forall i :: 0 <= i < n ==> s[i] == ' '
  {
    seq(n, _ => ' ')
  }

  /** The number of leading blanks: `len(line) - len(line.lstrip(" "))`. */
  function LeadingBlanks(line: string): (n: nat)
    ensures n <= |line|
    ensures line[..n] == Spaces(n)
    ensures n < |line| ==> line[n] != ' '
  {
    var n := FirstIndex(line, c => c != ' ');
    n
  }

  lemma {:induction false} LStripOfPadded(n: nat, s: string)
    requires s != "" ==> !IsSpace(s[0])
    ensures LStrip(Spaces(n) + s) == s
  {
    if n == 0 {
      assert Spaces(0) + s == s;
    } else {
      assert (Spaces(n) + s)[1..] == Spaces(n - 1) + s;
      LStripOfPadded(n - 1, s);
    }
  }

  lemma {:induction false} StripOfPadded(n: nat, s: string)
    requires Trimmed(s)
    ensures Strip(Spaces(n) + s) == s
  {
    LStripOfPadded(n, s);
  }

  lemma {:induction false} LeadingBlanksOfPadded(n: nat, s: string)
    requires s != "" && s[0] != ' '
    ensures LeadingBlanks(Spaces(n) + s) == n
  {
    FirstIndexAfter(Spaces(n), s, c => c != ' ');
  }

  predicate AllBlank(s: string) {
    forall i :: 0 <= i < |s| ==> IsSpace(s[i])
  }

  lemma {:induction false} RStripTail(s: string, blanks: string)
    requires AllBlank(blanks)
    ensures RStrip(s + blanks) == RStrip(s)
    decreases |blanks|
  {
    if blanks == [] {
      assert s + blanks == s;
    } else {
      var n := |blanks| - 1;
      assert (s + blanks)[..|s + blanks| - 1] == s + blanks[..n];
      RStripTail(s, blanks[..n]);
    }
  }

  lemma {:induction false} LStripHead(blanks: string, s: string)
    requires AllBlank(blanks)
    ensures LStrip(blanks + s) == LStrip(s)
  {
    if blanks == [] {
      assert blanks + s == s;
    } else {
      assert (blanks + s)[1..] == blanks[1..] + s;
      LStripHead(blanks[1..], s);
    }
  }

  /** Blanks around a trimmed text are stripped, and nothing else. */
  lemma {:induction false} StripAround(before: string, s: string, after: string)
    requires AllBlank(before) && AllBlank(after) && Trimmed(s)
    ensures Strip(before + s + after) == s
  {
    assert before + s + after == before + (s + after);
    LStripHead(before, s + after);
    if s == "" {
      assert s + after == after;
      AllStripped(after);
    } else {
      assert LStrip(s + after) == s + after;
      RStripTail(s, after);
    }
  }

  lemma {:induction false} AllStripped(blanks: string)
    requires AllBlank(blanks)
    ensures LStrip(blanks) == "" && RStrip(blanks) == "" && Strip(blanks) == ""
  {
    LStripHead(blanks, "");
    RStripTail("", blanks);
    assert blanks + "" == blanks && "" + blanks == blanks;
  }

  // ----- splitlines -----

  function SplitLines(text: string): seq<string> {
    if text == "" then []
    else
      var n := FirstIndex(text, IsLineBreak);
      if n == |text| then [text]
      else
        var width := if text[n] == '\r' && n + 1 < |text| && text[n + 1] == '\n' then 2 else 1;
        [text[..n]] + SplitLines(text[n + width..])
  }

  function Unlines(lines: seq<string>): string {
    if lines == [] then "" else lines[0] + "\n" + Unlines(lines[1..])
  }

  lemma {:induction false} SplitLinesOfUnlines(lines: seq<string>)
    requires forall i :: 0 <= i < |lines| ==> NoneOf(lines[i], IsLineBreak)
    ensures SplitLines(Unlines(lines)) == lines
  {
    if lines != [] {
      var text, n, rest := Unlines(lines), |lines[0]|, "\n" + Unlines(lines[1..]);
      assert text == lines[0] + rest;
      FirstIndexAfter(lines[0], rest, IsLineBreak);
      assert text[..n] == lines[0] && text[n] == '\n' && text[n + 1..] == Unlines(lines[1..]);
      SplitLinesOfUnlines(lines[1..]);
    }
  }

  // ----- lower -----

  /** str.lower on ASCII letters; other characters never lower to an ASCII letter of the words compared here. */
  function Lower(s: string): (r: string)
    ensures |r| == |s|
  {
    seq(|s|, i requires 0 <= i < |s| => LowerChar(s[i]))
  }

  function LowerChar(c: char): char {
    if 'A' <= c <= 'Z' then ((c as int) + 32) as char else c
  }

  // ----- decimal integers -----

  /** CPython's default limit on the number of digits int() and str() convert. */
  const MAX_INT_DIGITS: nat := 4300

  predicate IsDigit(c: char) {
    '0' <= c <= '9'
  }

  function DigitChar(d: nat): (c: char)
    requires d < 10
    ensures IsDigit(c) && DigitValue(c) == d
  {
    (('0' as int) + d) as char
  }

  function DigitValue(c: char): nat
    requires IsDigit(c)
  {
    (c as int) - ('0' as int)
  }

  function NatToString(n: nat): (s: string)
    ensures s != "" && forall i :: 0 <= i < |s| ==> IsDigit(s[i])
  {
    if n < 10 then [DigitChar(n)] else NatToString(n / 10) + [DigitChar(n % 10)]
  }

  function IntToString(n: int): (s: string)
    ensures s != "" && (s[0] == '-' || IsDigit(s[0])) && IsDigit(s[|s| - 1])
  {
    if n < 0 then "-" + NatToString(-n) else NatToString(n)
  }

  predicate Printable(n: int) {
    |NatToString(if n < 0 then -n else n)| <= MAX_INT_DIGITS
  }

  /** Digits with single underscores between them, most significant first. */
  function ParseDigits(s: string): Option<nat> {
    if s == "" || !IsDigit(s[|s| - 1]) then None
    else
      var d := DigitValue(s[|s| - 1]);
      if |s| == 1 then Some(d)
      else
        var rest := if s[|s| - 2] == '_' then s[..|s| - 2] else s[..|s| - 1];
        match ParseDigits(rest)
        case None => None
        case Some(v) => Some(10 * v + d)
  }

  function DigitCount(s: string): nat {
    if s == "" then 0 else (if IsDigit(s[0]) then 1 else 0) + DigitCount(s[1..])
  }

  /** Python's int(text) on ASCII digits; None stands for ValueError. */
  function ParseInt(text: string): Option<int> {
    var s := Strip(text);
    var signed := s != "" && (s[0] == '-' || s[0] == '+');
    var body := if signed then s[1..] else s;
    if DigitCount(body) > MAX_INT_DIGITS then None
    else
      match ParseDigits(body)
      case None => None
      case Some(v) =>
        var value: int := v;
        Some(if signed && s[0] == '-' then -value else value)
  }

  lemma {:induction false} DigitCountAllDigits(s: string)
    requires forall i :: 0 <= i < |s| ==> IsDigit(s[i])
    ensures DigitCount(s) == |s|
  {
    if s != "" {
      DigitCountAllDigits(s[1..]);
    }
  }

  lemma {:induction false} ParseDigitsOfNat(n: nat)
    ensures ParseDigits(NatToString(n)) == Some(n)
  {
    if n >= 10 {
      var s := NatToString(n);
      ParseDigitsOfNat(n / 10);
      assert s[..|s| - 1] == NatToString(n / 10);
      assert IsDigit(NatToString(n / 10)[|s| - 2]);
      assert s[|s| - 2] != '_';
    }
  }

  lemma {:induction false} ParseIntOfIntToString(n: int)
    requires Printable(n)
    ensures ParseInt(IntToString(n)) == Some(n)
  {
    var s := IntToString(n);
    assert Strip(s) == s;
    var body := NatToString(if n < 0 then -n else n);
    assert n < 0 ==> s[1..] == body;
    DigitCountAllDigits(body);
    ParseDigitsOfNat(if n < 0 then -n else n);
  }
}
