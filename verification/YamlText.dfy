/** What comments, blank lines, blanks and line ends mean in a whole configuration text. */
module YamlText {
  import opened Results
  import opened Text
  import opened YamlSyntax
  import opened YamlTree

  // ----- one raw line -----

  lemma {:induction false} FirstIndexIs(s: string, p: char -> bool, n: nat)
    requires n < |s| && p(s[n]) && forall i :: 0 <= i < n ==> !p(s[i])
    ensures FirstIndex(s, p) == n
  {
  }

  /** A line means what it means up to its first number sign. */
  lemma {:induction false} CommentIgnored(raw: string, comment: string)
    ensures ReadLine(raw + ("#" + comment)) == ReadLine(raw)
  {
    var hash := (c: char) => c == '#';
    var n, all := FirstIndex(raw, hash), raw + ("#" + comment);
    assert all[..n] == raw[..n];
    FirstIndexIs(all, hash, n);
  }

  /** A line of blanks and perhaps a comment says nothing. */
  lemma {:induction false} CommentLineBlank(blanks: string, comment: string)
    requires AllBlank(blanks)
    ensures ReadLine(blanks) == Blank && ReadLine(blanks + ("#" + comment)) == Blank
  {
    CommentIgnored(blanks, comment);
    var hash := (c: char) => c == '#';
    assert FirstIndex(blanks, hash) == |blanks|;
    assert blanks[..|blanks|] == blanks;
    AllStripped(blanks);
    assert Strip("") == "";
  }

  /** Trailing blanks change no line. */
  lemma {:induction false} TrailingBlanksIgnored(raw: string, blanks: string)
    requires AllBlank(blanks) && '#' !in raw
    ensures ReadLine(raw + blanks) == ReadLine(raw)
  {
    var hash := (c: char) => c == '#';
    assert FirstIndex(raw, hash) == |raw| && FirstIndex(raw + blanks, hash) == |raw + blanks|;
    assert raw[..|raw|] == raw && (raw + blanks)[..|raw + blanks|] == raw + blanks;
    RStripTail(raw, blanks);
  }

  /** Text that can stand between two marks of a line: no blank at its ends, no number sign in it. */
  predicate Plain(s: string) {
    Trimmed(s) && '#' !in s
  }

  /**
   A key, a colon and a value are read as that pair however they are spread over the line; with nothing but blanks after
   the colon the key opens a mapping. Only the first colon separates.
  */
  lemma {:induction false} ReadSpreadPair(n: nat, key: string, gap: string, gap': string, value: string, rest: string)
    requires Plain(key) && key != "" && ':' !in key && !StartsWith(key, "- ") && key != "-" && Plain(value)
    requires AllBlank(gap) && AllBlank(gap') && AllBlank(rest)
    ensures ReadLine(Spaces(n) + (key + gap + ":" + gap' + value + rest))
         == Pair(n, key, if value == "" then None else Some(ParseScalar(value)))
  {
    hide ParseScalar;
    var tail := ":" + gap' + value;
    var whole := key + gap + tail;
    var body := if value == "" then key + gap + ":" else whole;
    var after := if value == "" then gap' + rest else rest;
    assert Spaces(n) + (key + gap + ":" + gap' + value + rest) == Spaces(n) + body + after;
    SpreadBody(key, gap, gap', value, body);
    assert '#' !in Spaces(n) + body;
    TrailingBlanksIgnored(Spaces(n) + body, after);
    ReadPadded(n, body);
    ReadSpreadBody(n, key, gap, if value == "" then "" else gap', value);
    if value == "" {
      assert ":" + "" + value == ":";
      assert key + gap + (":" + "" + value) == body;
    } else {
      assert key + gap + (":" + gap' + value) == body;
    }
  }

  lemma {:induction false} BlankNoHash(blanks: string)
    requires AllBlank(blanks)
    ensures '#' !in blanks && ':' !in blanks
  {
  }

  lemma {:induction false} SpreadBody(key: string, gap: string, gap': string, value: string, body: string)
    requires Plain(key) && key != "" && Plain(value) && AllBlank(gap) && AllBlank(gap')
    requires body == if value == "" then key + gap + ":" else key + gap + (":" + gap' + value)
    ensures body != "" && Trimmed(body) && '#' !in body
  {
    BlankNoHash(gap);
    BlankNoHash(gap');
    assert body[0] == key[0];
    if value == "" {
      assert body[|body| - 1] == ':';
    } else {
      assert body[|body| - 1] == value[|value| - 1];
    }
  }

  lemma {:induction false} ReadSpreadBody(n: nat, key: string, gap: string, gap': string, value: string)
    requires Plain(key) && key != "" && ':' !in key && !StartsWith(key, "- ") && key != "-" && Plain(value)
    requires AllBlank(gap) && AllBlank(gap')
    ensures ReadBody(n, key + gap + (":" + gap' + value)) == Pair(n, key, if value == "" then None else Some(ParseScalar(value)))
  {
    hide ParseScalar;
    var before := key + gap;
    var tail := ":" + gap' + value;
    var body := before + tail;
    BlankNoHash(gap);
    FirstIndexAfter(before, tail, c => c == ':');
    NoItem(key, gap, tail);
    assert body[..|before|] == before && body[|before| + 1..] == gap' + value;
    assert before == "" + key + gap && gap' + value == gap' + value + "";
    StripAround("", key, gap);
    StripAround(gap', value, "");
  }

  lemma {:induction false} NoItem(key: string, gap: string, tail: string)
    requires Trimmed(key) && key != "" && !StartsWith(key, "- ") && key != "-"
    ensures !StartsWith(key + gap + tail, "- ")
  {
    var body := key + gap + tail;
    if |key| >= 2 {
      assert key[..2] == body[..2];
    } else {
      assert key == [key[0]];
      assert |body| >= 2 ==> body[..2][0] == key[0];
    }
  }

  /** A dash, a blank and anything more is a list item, whatever it contains. */
  lemma {:induction false} ReadSpreadItem(n: nat, gap: string, item: string, rest: string)
    requires Plain(item) && item != "" && AllBlank(gap) && AllBlank(rest)
    ensures ReadLine(Spaces(n) + ("- " + gap + item + rest)) == Item(n, ParseScalar(item))
  {
    hide ParseScalar, ReadLine, ReadBody, Strip;
    var body := "- " + gap + item;
    ItemBody(n, gap, item, body);
    assert Spaces(n) + ("- " + gap + item + rest) == Spaces(n) + body + rest;
    TrailingBlanksIgnored(Spaces(n) + body, rest);
    ReadPadded(n, body);
    ReadItemBody(n, gap, item, body);
  }

  lemma {:induction false} ItemBody(n: nat, gap: string, item: string, body: string)
    requires Plain(item) && item != "" && AllBlank(gap) && body == "- " + gap + item
    ensures body != "" && Trimmed(body) && '#' !in body && '#' !in Spaces(n) + body
  {
    BlankNoHash(gap);
    assert body[|body| - 1] == item[|item| - 1] && body[0] == '-';
    assert forall i :: 0 <= i < |Spaces(n)| ==> Spaces(n)[i] == ' ';
  }

  lemma {:induction false} ReadItemBody(n: nat, gap: string, item: string, body: string)
    requires Plain(item) && item != "" && AllBlank(gap) && body == "- " + gap + item
    ensures ReadBody(n, body) == Item(n, ParseScalar(item))
  {
    hide ParseScalar, Strip;
    assert body[..2] == "- " && body[2..] == gap + item + "";
    StripAround(gap, item, "");
  }

  // ----- scalars that are not printed by the model -----

  /** Single quotes delimit a text as double quotes do, whatever stands between them. */
  lemma {:induction false} ParseSingleQuoted(t: string)
    ensures ParseScalar("'" + t + "'") == SStr(t)
  {
    var s := "'" + t + "'";
    assert Lower(s)[0] == '\'';
    assert s[..1] == "'" && s[|s| - 1..] == "'" && s[..1] != "\"";
    assert s[1..|s| - 1] == t;
  }

  lemma {:induction false} DigitsOrNothing(s: string)
    requires ParseDigits(s).Some?
    ensures forall i :: 0 <= i < |s| ==> IsDigit(s[i]) || s[i] == '_'
    decreases |s|
  {
    if |s| > 1 {
      var rest := if s[|s| - 2] == '_' then s[..|s| - 2] else s[..|s| - 1];
      DigitsOrNothing(rest);
    }
  }

  predicate IsLetter(c: char) {
    'a' <= c <= 'z' || 'A' <= c <= 'Z'
  }

  /** The words that stand for a truth value or for nothing, in lower case. */
  const WORDS: set<string> := {"true", "false", "null", "none"}

  /** A word is read by its letters, whatever their case. */
  lemma {:induction false} ParseWord(word: string, spelling: string)
    requires word in WORDS && |spelling| == |word| && forall i :: 0 <= i < |word| ==> LowerChar(spelling[i]) == word[i]
    ensures ParseScalar(spelling) == if word == "true" then SBool(true) else if word == "false" then SBool(false) else SNull
  {
    assert Lower(spelling) == word;
  }

  /** A bare text that starts with a letter is itself, unless it is one of those words. */
  lemma {:induction false} ParseBare(s: string)
    requires Trimmed(s) && s != "" && IsLetter(s[0]) && Lower(s) !in WORDS
    ensures ParseScalar(s) == SStr(s)
  {
    assert Lower(s) != "~" by {
      assert Lower(s)[0] == LowerChar(s[0]);
    }
    assert !StartsWith(s, "\"") && !StartsWith(s, "'") by {
      assert s[..1][0] == s[0];
    }
    assert Strip(s) == s by {
      StripAround("", s, "");
      assert "" + s + "" == s;
    }
    if ParseInt(s).Some? {
      DigitsOrNothing(s);
    }
  }

  // ----- the whole text -----

  ghost predicate OneLines(lines: seq<string>) {
    forall i :: 0 <= i < |lines| ==> OneLine(lines[i])
  }

  lemma {:induction false} ParseLines(lines: seq<string>)
    requires OneLines(lines)
    ensures Parse(Unlines(lines)) == match Run(START, ReadLines(lines)) case Ok(st) => Ok(Finish(st)) case Err(e) => Err(e)
  {
    SplitLinesOfUnlines(lines);
  }

  /** A comment at the end of a line changes neither the result nor the error of any text. */
  lemma {:induction false} CommentAppended(lines: seq<string>, i: nat, comment: string)
    requires OneLines(lines) && i < |lines| && OneLine(comment)
    ensures Parse(Unlines(lines[i := lines[i] + ("#" + comment)])) == Parse(Unlines(lines))
  {
    hide ReadLine;
    var changed := lines[i := lines[i] + ("#" + comment)];
    CommentIgnored(lines[i], comment);
    assert OneLines(changed);
    assert ReadLines(changed) == ReadLines(lines);
    ParseLines(lines);
    ParseLines(changed);
  }

  lemma {:induction false} RunBlank(st: State, a: seq<Line>, b: seq<Line>)
    requires Valid(st)
    ensures Run(st, a + ([Blank] + b)) == Run(st, a + b)
  {
    RunConcat(st, a, [Blank] + b);
    RunConcat(st, a, b);
    if Run(st, a).Ok? {
      RunFirst(Run(st, a).value, Blank, b);
    }
  }

  lemma {:induction false} ReadLinesConcat(a: seq<string>, b: seq<string>)
    ensures ReadLines(a + b) == ReadLines(a) + ReadLines(b)
  {
  }

  /** A line of its own that holds blanks, or blanks and a comment, changes nothing wherever it is put. */
  lemma {:induction false} CommentInserted(before: seq<string>, after: seq<string>, blanks: string, comment: string)
    requires OneLines(before) && OneLines(after) && AllBlank(blanks) && OneLine(blanks) && OneLine(comment)
    ensures Parse(Unlines(before + [blanks + ("#" + comment)] + after)) == Parse(Unlines(before + after))
    ensures Parse(Unlines(before + [blanks] + after)) == Parse(Unlines(before + after))
  {
    hide ReadLine, Valid;
    CommentLineBlank(blanks, comment);
    BlankLineInserted(before, after, blanks + ("#" + comment));
    BlankLineInserted(before, after, blanks);
  }

  lemma {:induction false} BlankLineInserted(before: seq<string>, after: seq<string>, line: string)
    requires OneLines(before) && OneLines(after) && OneLine(line) && ReadLine(line) == Blank
    ensures Parse(Unlines(before + [line] + after)) == Parse(Unlines(before + after))
  {
    hide ReadLine, ReadLines, Run, Parse, Unlines, Valid, Finish;
    var longer := before + [line] + after;
    OneBlankRead(line);
    ReadLinesConcat(before + [line], after);
    ReadLinesConcat(before, [line]);
    ReadLinesConcat(before, after);
    assert ReadLines(longer) == ReadLines(before) + ([Blank] + ReadLines(after));
    assert Valid(START) by {
      StartValid();
    }
    RunBlank(START, ReadLines(before), ReadLines(after));
    ParseLines(longer);
    ParseLines(before + after);
  }

  lemma {:induction false} StartValid()
    ensures Valid(START)
  {
  }

  lemma {:induction false} OneBlankRead(line: string)
    requires ReadLine(line) == Blank
    ensures ReadLines([line]) == [Blank]
  {
    hide ReadLine;
  }

  // ----- line ends -----

  /** The lines, each with its own line end. */
  function Ended(lines: seq<string>, ends: seq<string>): string
    requires |ends| == |lines|
  {
    if lines == [] then "" else lines[0] + ends[0] + Ended(lines[1..], ends[1..])
  }

  predicate LineEnd(end: string) {
    end == "\n" || end == "\r\n"
  }

  /** CRLF and LF line ends cut a text alike, also mixed, and so does a last line without any. */
  lemma {:induction false} SplitLinesOfEnded(lines: seq<string>, ends: seq<string>, last: string)
    requires OneLines(lines) && |ends| == |lines| && (forall i :: 0 <= i < |ends| ==> LineEnd(ends[i])) && OneLine(last)
    ensures SplitLines(Ended(lines, ends) + last) == lines + if last == "" then [] else [last]
  {
    hide SplitLines, LineEnd, OneLine;
    if lines == [] {
      assert Ended(lines, ends) == "";
      assert Ended(lines, ends) + last == last;
      LastLine(last);
      assert [] + SplitLines(last) == SplitLines(last);
    } else {
      var rest := Ended(lines[1..], ends[1..]) + last;
      assert Ended(lines, ends) == lines[0] + ends[0] + Ended(lines[1..], ends[1..]);
      assert Ended(lines, ends) + last == lines[0] + (ends[0] + rest);
      SplitLinesOfEnded(lines[1..], ends[1..], last);
      CutEnd(lines[0], ends[0], rest);
      assert lines == [lines[0]] + lines[1..];
      var more := if last == "" then [] else [last];
      assert [lines[0]] + (lines[1..] + more) == lines + more;
    }
  }

  lemma {:induction false} LastLine(last: string)
    requires OneLine(last)
    ensures SplitLines(last) == if last == "" then [] else [last]
  {
  }

  lemma {:induction false} CutEnd(line: string, end: string, rest: string)
    requires OneLine(line) && LineEnd(end)
    ensures SplitLines(line + (end + rest)) == [line] + SplitLines(rest)
  {
    hide IsLineBreak;
    assert IsLineBreak('\n') && IsLineBreak('\r') by {
      Breaks();
    }
    var text, n := line + (end + rest), |line|;
    FirstIndexAfter(line, end + rest, IsLineBreak);
    assert text[..n] == line && text[n] == end[0];
    assert text[n + |end|..] == rest;
    if end == "\r\n" {
      assert text[n + 1] == '\n';
    }
  }

  lemma {:induction false} Breaks()
    ensures IsLineBreak('\n') && IsLineBreak('\r')
  {
  }

  /** So a configuration file with CRLF line ends, or without a last one, means the same as with LF ends. */
  lemma {:induction false} LineEndsIgnored(lines: seq<string>, ends: seq<string>, last: string)
    requires OneLines(lines) && |ends| == |lines| && (forall i :: 0 <= i < |ends| ==> LineEnd(ends[i])) && OneLine(last)
    ensures Parse(Ended(lines, ends) + last) == Parse(Unlines(lines + [last]))
  {
    hide ReadLine, LineEnd;
    SplitLinesOfEnded(lines, ends, last);
    ParseLines(lines + [last]);
    if last == "" {
      CommentLineBlank("", "");
      ParseLines(lines);
      BlankLineInserted(lines, [], "");
      assert lines + [""] + [] == lines + [""] && lines + [] == lines;
    }
  }
}
