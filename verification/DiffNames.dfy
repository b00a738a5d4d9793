/** The file names a diff gives: as the validator reads them, as the applier reads them, and when the two agree. */
module DiffNames {
  import opened Text
  import opened PySeq
  import opened PyPath

  const TARGET := "+++ b/"

  /** The line names a file. */
  predicate Names(line: string) {
    StartsWith(line, TARGET) && |line| > |TARGET|
  }

  /** re.findall(r"^\+\+\+ b/(.+)$", diff, re.MULTILINE) on lines that end at line feeds only. */
  function NamedFiles(lines: seq<string>): seq<string> {
    if lines == [] then [] else (if Names(lines[0]) then [lines[0][|TARGET|..]] else []) + NamedFiles(lines[1..])
  }

  /** PatchApplier's `_modified_files` on lines as str.splitlines sees them, empty names included. */
  function ModifiedFiles(lines: seq<string>): seq<string> {
    if lines == [] then []
    else (if StartsWith(lines[0], TARGET) then [lines[0][|TARGET|..]] else []) + ModifiedFiles(lines[1..])
  }

  lemma {:induction false} NonEmptyModified(lines: seq<string>)
    ensures NonEmpty(ModifiedFiles(lines)) == NamedFiles(lines)
  {
    if lines == [] {
    } else {
      NonEmptyModified(lines[1..]);
      var rest := ModifiedFiles(lines[1..]);
      if StartsWith(lines[0], TARGET) {
        var name := lines[0][|TARGET|..];
        assert ([name] + rest)[1..] == rest;
      } else {
        assert [] + rest == rest;
      }
    }
  }

  lemma {:induction false} NamedConcat(a: seq<string>, b: seq<string>)
    ensures NamedFiles(a + b) == NamedFiles(a) + NamedFiles(b)
  {
    hide Names;
    if a == [] {
      assert a + b == b;
    } else {
      assert (a + b)[0] == a[0] && (a + b)[1..] == a[1..] + b;
      NamedConcat(a[1..], b);
    }
  }

  lemma {:induction false} NamedExactly(lines: seq<string>, file: string)
    ensures file in NamedFiles(lines) <==> file != "" && "+++ b/" + file in lines
  {
    if lines == [] {
    } else {
      NamedExactly(lines[1..], file);
      assert lines == [lines[0]] + lines[1..];
      NamesItself(lines[0], file);
    }
  }

  lemma {:induction false} NamesItself(line: string, file: string)
    ensures Names(line) && line[|TARGET|..] == file <==> file != "" && line == "+++ b/" + file
  {
    var whole := "+++ b/" + file;
    assert whole[..6] == TARGET && whole[6..] == file;
    if Names(line) && line[|TARGET|..] == file {
      assert line == line[..6] + line[6..];
    }
  }

  // ----- str.splitlines, one line feed at a time -----

  /** The first line ends at the first break, which a carriage return shares with a line feed after it. */
  lemma {:induction false} SplitAtBreak(line: string, c: char, rest: string)
    requires NoneOf(line, IsLineBreak) && IsLineBreak(c) && !(c == '\r' && rest != "" && rest[0] == '\n')
    ensures SplitLines(line + [c] + rest) == [line] + SplitLines(rest)
  {
    hide IsLineBreak;
    var text := line + ([c] + rest);
    assert text == line + [c] + rest;
    FirstIndexAfter(line, [c] + rest, IsLineBreak);
    var n := |line|;
    assert text[..n] == line && text[n] == c && text[n + 1..] == rest;
    assert n + 1 < |text| ==> text[n + 1] == rest[0];
  }

  lemma {:induction false} SplitAtCrLf(line: string, rest: string)
    requires NoneOf(line, IsLineBreak)
    ensures SplitLines(line + "\r\n" + rest) == [line] + SplitLines(rest)
  {
    var text := line + ("\r\n" + rest);
    assert text == line + "\r\n" + rest;
    FirstIndexAfter(line, "\r\n" + rest, IsLineBreak);
    var n := |line|;
    assert text[..n] == line && text[n] == '\r' && text[n + 1] == '\n' && text[n + 2..] == rest;
  }

  lemma {:induction false} SplitUnbroken(line: string)
    requires NoneOf(line, IsLineBreak)
    ensures SplitLines(line) == if line == "" then [] else [line]
  {
  }

  /** A line is unbroken, or cut at its first break. */
  lemma {:induction false} FirstBreak(line: string) returns (n: nat)
    ensures n <= |line| && NoneOf(line[..n], IsLineBreak)
    ensures n < |line| ==> IsLineBreak(line[n]) && line == line[..n] + [line[n]] + line[n + 1..]
  {
    n := FirstIndex(line, IsLineBreak);
  }

  lemma {:induction false} LineFeedBreaks()
    ensures IsLineBreak('\n') && IsLineBreak('\r') && IsLineBreak('\U{2028}')
  {
  }

  /** str.splitlines of a line, a line feed and the rest names what the line and the rest name. */
  lemma {:induction false} CutAtLineFeed(line: string, rest: string)
    requires '\n' !in line
    ensures NamedFiles(SplitLines(line + "\n" + rest)) == NamedFiles(SplitLines(line)) + NamedFiles(SplitLines(rest))
    decreases |line|
  {
    hide Names, IsLineBreak, NamedFiles, SplitLines;
    LineFeedBreaks();
    NoName();
    var n := FirstBreak(line);
    if n == |line| {
      assert line[..n] == line;
      SplitAtBreak(line, '\n', rest);
      SplitUnbroken(line);
      NamedConcat([line], SplitLines(rest));
    } else {
      var piece, c, more := line[..n], line[n], line[n + 1..];
      if c == '\r' && more == "" {
        assert line + "\n" + rest == piece + "\r\n" + rest;
        SplitAtCrLf(piece, rest);
        SplitAtBreak(piece, c, more);
        SplitUnbroken("");
        assert [piece] + [] == [piece];
        NamedConcat([piece], SplitLines(rest));
      } else {
        assert more != "" ==> more[0] in line;
        assert line + "\n" + rest == piece + [c] + (more + "\n" + rest);
        assert more != "" ==> (more + "\n" + rest)[0] == more[0];
        SplitAtBreak(piece, c, more + "\n" + rest);
        SplitAtBreak(piece, c, more);
        CutAtLineFeed(more, rest);
        NamedConcat([piece], SplitLines(more + "\n" + rest));
        NamedConcat([piece], SplitLines(more));
      }
    }
  }

  lemma {:induction false} NoName()
    ensures !Names("") && NamedFiles([""]) == [] && NamedFiles([]) == []
  {
    assert [""][1..] == [];
  }

  /** What the applier reads, line feed by line feed. */
  function NamesByLine(lines: seq<string>): seq<string> {
    if lines == [] then [] else NamedFiles(SplitLines(lines[0])) + NamesByLine(lines[1..])
  }

  lemma {:induction false} ReadByLine(diff: string)
    ensures NamedFiles(SplitLines(diff)) == NamesByLine(SplitOn(diff, '\n'))
    ensures forall line :: line in SplitOn(diff, '\n') ==> '\n' !in line
  {
    hide Names;
    var n := FirstIndex(diff, c => c == '\n');
    if n == |diff| {
      assert NamesByLine([diff][1..]) == [];
    } else {
      var line, rest := diff[..n], diff[n + 1..];
      assert diff == line + "\n" + rest;
      ReadByLine(rest);
      CutAtLineFeed(line, rest);
      assert SplitOn(diff, '\n')[1..] == SplitOn(rest, '\n');
    }
  }

  // ----- one line -----

  /** A file name stands here, after the mark and before any line break. */
  predicate NameAt(line: string, p: nat) {
    p <= |line| && StartsWith(line[p..], TARGET) && p + |TARGET| < |line| && !IsLineBreak(line[p + |TARGET|])
  }

  /** A file name stands directly after a line break other than a line feed. */
  predicate HidesName(line: string) {
    exists k :: 0 <= k < |line| && IsLineBreak(line[k]) && NameAt(line, k + 1)
  }

  /** Both readers get the same from this line: it names a file and has no other line break, or it hides no name. */
  predicate Agrees(line: string) {
    if Names(line) then NoneOf(line, IsLineBreak) else !HidesName(line)
  }

  lemma {:induction false} TargetHasNoBreak(line: string, p: nat)
    requires p <= |line| && StartsWith(line[p..], TARGET)
    ensures forall i :: p <= i < p + |TARGET| ==> !IsLineBreak(line[i])
  {
    assert forall i :: p <= i < p + |TARGET| ==> line[i] == TARGET[i - p];
  }

  lemma {:induction false} FirstPieceNames(line: string, n: nat)
    requires n == FirstIndex(line, IsLineBreak)
    ensures Names(line[..n]) <==> NameAt(line, 0)
  {
    hide IsLineBreak;
    assert line[0..] == line;
    if StartsWith(line, TARGET) {
      TargetHasNoBreak(line, 0);
      assert n >= |TARGET|;
      assert line[..n][..|TARGET|] == line[..|TARGET|];
    }
  }

  lemma {:induction false} HiddenInRest(line: string, n: nat)
    requires n == FirstIndex(line, IsLineBreak) < |line|
    ensures HidesName(line) <==> NameAt(line[n + 1..], 0) || HidesName(line[n + 1..])
  {
    hide IsLineBreak, StartsWith;
    var rest := line[n + 1..];
    forall p: nat | p <= |rest|
      ensures NameAt(rest, p) <==> NameAt(line, n + 1 + p)
    {
      assert rest[p..] == line[n + 1 + p..];
    }
    if HidesName(line) {
      var k :| 0 <= k < |line| && IsLineBreak(line[k]) && NameAt(line, k + 1);
      assert k >= n;
      if k > n {
        assert rest[k - n - 1] == line[k] && NameAt(rest, k - n);
      }
    }
    if HidesName(rest) {
      var k :| 0 <= k < |rest| && IsLineBreak(rest[k]) && NameAt(rest, k + 1);
      assert line[n + 1 + k] == rest[k] && NameAt(line, n + 1 + k + 1);
    }
  }

  /** str.splitlines finds no name in a line exactly when none stands at its start or directly after a line break. */
  lemma {:induction false} NoNamesFound(line: string)
    requires '\n' !in line
    ensures NamedFiles(SplitLines(line)) == [] <==> !NameAt(line, 0) && !HidesName(line)
    decreases |line|
  {
    hide Names, IsLineBreak, NameAt, HidesName, SplitLines, NamedFiles;
    var n := FirstIndex(line, IsLineBreak);
    var piece := line[..n];
    FirstPieceNames(line, n);
    NamedAlone(piece);
    NoName();
    if n == |line| {
      assert piece == line;
      SplitUnbroken(line);
      NothingHidden(line);
    } else {
      var rest := line[n + 1..];
      assert forall c :: c in rest ==> c in line;
      assert line == piece + [line[n]] + rest;
      assert rest != "" ==> rest[0] in line;
      SplitAtBreak(piece, line[n], rest);
      NamedConcat([piece], SplitLines(rest));
      NoNamesFound(rest);
      HiddenInRest(line, n);
    }
  }

  lemma {:induction false} NamedAlone(line: string)
    ensures NamedFiles([line]) == [] <==> !Names(line)
  {
    assert [line][1..] == [];
  }

  lemma {:induction false} NothingHidden(line: string)
    requires NoneOf(line, IsLineBreak)
    ensures !HidesName(line)
  {
  }

  lemma {:induction false} UnbrokenLine(line: string)
    requires NoneOf(line, IsLineBreak)
    ensures NamedFiles(SplitLines(line)) == NamedFiles([line])
  {
    NoName();
  }

  /** Lines of str.splitlines, and so the applier's names, hold no line break. */
  lemma {:induction false} NamesUnbroken(text: string)
    ensures forall name :: name in NamedFiles(SplitLines(text)) ==> NoneOf(name, IsLineBreak)
    decreases |text|
  {
    hide Names, IsLineBreak, SplitLines, NamedFiles;
    var n := FirstBreak(text);
    var piece := text[..n];
    OneNameAtMost(piece);
    if n == |text| {
      assert piece == text;
      SplitUnbroken(text);
      NoName();
    } else if text[n] == '\r' && n + 1 < |text| && text[n + 1] == '\n' {
      var rest := text[n + 2..];
      assert text == piece + "\r\n" + rest;
      SplitAtCrLf(piece, rest);
      NamedConcat([piece], SplitLines(rest));
      NamesUnbroken(rest);
    } else {
      var rest := text[n + 1..];
      SplitAtBreak(piece, text[n], rest);
      NamedConcat([piece], SplitLines(rest));
      NamesUnbroken(rest);
    }
  }

  lemma {:induction false} OneNameAtMost(line: string)
    requires NoneOf(line, IsLineBreak)
    ensures forall name :: name in NamedFiles([line]) ==> NoneOf(name, IsLineBreak)
  {
    hide IsLineBreak;
    assert NamedFiles([line][1..]) == [];
  }

  // ----- all lines -----

  lemma {:induction false} AgreeingLines(lines: seq<string>)
    requires forall line :: line in lines ==> '\n' !in line && Agrees(line)
    ensures NamesByLine(lines) == NamedFiles(lines)
  {
    hide Names, IsLineBreak, NameAt, HidesName;
    if lines == [] {
    } else {
      var line := lines[0];
      assert line in lines;
      AgreeingLines(lines[1..]);
      NamedConcat([line], lines[1..]);
      assert [line] + lines[1..] == lines;
      if Names(line) {
        UnbrokenLine(line);
      } else {
        NoNamesFound(line);
        NotNamedThere(line);
        assert NamedFiles([line][1..]) == [];
      }
    }
  }

  lemma {:induction false} NotNamedThere(line: string)
    ensures NameAt(line, 0) ==> Names(line)
  {
    assert line[0..] == line;
  }

  /** Without a broken name, the applier finds at least as many names, and more when one is hidden. */
  lemma {:induction false} HiddenNamesCount(lines: seq<string>)
    requires forall line :: line in lines ==> '\n' !in line && (Names(line) ==> NoneOf(line, IsLineBreak))
    ensures |NamesByLine(lines)| >= |NamedFiles(lines)|
    ensures (exists line :: line in lines && !Agrees(line)) ==> |NamesByLine(lines)| > |NamedFiles(lines)|
  {
    hide Names, IsLineBreak, NameAt, HidesName;
    if lines == [] {
    } else {
      var line := lines[0];
      assert line in lines;
      HiddenNamesCount(lines[1..]);
      assert lines == [line] + lines[1..];
      if Names(line) {
        UnbrokenLine(line);
        assert NamedFiles([line][1..]) == [];
        assert |NamedFiles([line])| == 1;
      } else {
        NoNamesFound(line);
      }
    }
  }

  lemma {:induction false} NameListed(lines: seq<string>, line: string)
    requires line in lines && Names(line)
    ensures line[|TARGET|..] in NamedFiles(lines)
  {
    hide Names;
    if lines[0] != line {
      assert line in lines[1..];
      NameListed(lines[1..], line);
    }
  }

  /**
   The applier backs up exactly the names the validator checks, in order and empty names aside, if and only if every
   line, cut at line feeds, either names a file and holds no other line break, or has no name directly after one.
  */
  lemma {:induction false} SameFilesNamed(diff: string)
    ensures NonEmpty(ModifiedFiles(SplitLines(diff))) == NamedFiles(SplitOn(diff, '\n'))
            <==> forall line :: line in SplitOn(diff, '\n') ==> Agrees(line)
  {
    hide Names, IsLineBreak, NameAt, HidesName, ModifiedFiles, NamedFiles;
    var lines := SplitOn(diff, '\n');
    NonEmptyModified(SplitLines(diff));
    ReadByLine(diff);
    if forall line :: line in lines ==> Agrees(line) {
      AgreeingLines(lines);
    } else if exists line :: line in lines && Names(line) && !NoneOf(line, IsLineBreak) {
      var line :| line in lines && Names(line) && !NoneOf(line, IsLineBreak);
      NameListed(lines, line);
      NamesUnbroken(diff);
      BrokenName(line);
    } else {
      HiddenNamesCount(lines);
    }
  }

  lemma {:induction false} BrokenName(line: string)
    requires Names(line) && !NoneOf(line, IsLineBreak)
    ensures !NoneOf(line[|TARGET|..], IsLineBreak)
  {
    hide IsLineBreak;
    assert line[0..] == line;
    TargetHasNoBreak(line, 0);
    var k :| 0 <= k < |line| && IsLineBreak(line[k]);
    assert line[|TARGET|..][k - |TARGET|] == line[k];
  }

  // ----- inputs on which the readers differ -----

  lemma {:induction false} OneName(line: string, name: string)
    requires line == TARGET + name
    ensures ModifiedFiles([line]) == [name]
    ensures name != "" ==> NamedFiles([line]) == [name]
  {
    assert [line][1..] == [];
    assert line[..6] == TARGET && line[6..] == name;
  }

  /** A name directly after a line break other than a line feed is the applier's to back up and put back, and never checked. */
  lemma {:induction false} UncheckedName(added: string, c: char, name: string)
    requires NoneOf(added, IsLineBreak) && |added| > 1 && added[1] != TARGET[1]
    requires IsLineBreak(c) && c != '\n' && NoneOf(name, IsLineBreak)
    ensures var diff := added + [c] + (TARGET + name);
            NamedFiles(SplitOn(diff, '\n')) == [] && ModifiedFiles(SplitLines(diff)) == [name]
  {
    hide SplitLines, SplitOn, NamedFiles, ModifiedFiles, IsLineBreak;
    var named := TARGET + name;
    var diff := added + [c] + named;
    LineFeedBreaks();
    TargetUnbroken(name);
    SplitAtBreak(added, c, named);
    SplitUnbroken(named);
    OneName(named, name);
    Unnamed(added, [named]);
    NoLineFeed(added);
    NoLineFeed(named);
    Uncut(diff, '\n');
    assert diff[1] == added[1];
    Unnamed(diff, []);
    assert [diff] + [] == [diff];
    NoName();
  }

  lemma {:induction false} TargetUnbroken(name: string)
    requires NoneOf(name, IsLineBreak)
    ensures NoneOf(TARGET + name, IsLineBreak)
  {
  }

  lemma {:induction false} NoLineFeed(text: string)
    requires NoneOf(text, IsLineBreak)
    ensures '\n' !in text
  {
  }

  lemma {:induction false} Unnamed(line: string, rest: seq<string>)
    requires |line| > 1 && line[1] != TARGET[1]
    ensures ModifiedFiles([line] + rest) == ModifiedFiles(rest) && NamedFiles([line] + rest) == NamedFiles(rest)
  {
    assert ([line] + rest)[1..] == rest;
    assert |line| >= 6 ==> line[..6][1] == line[1];
  }

  /** With a CRLF line end the checked name ends in a carriage return and the applier's does not. */
  lemma {:induction false} CarriageReturnKept(name: string)
    requires NoneOf(name, IsLineBreak)
    ensures var diff := TARGET + name + "\r\n";
            NamedFiles(SplitOn(diff, '\n')) == [name + "\r"] && ModifiedFiles(SplitLines(diff)) == [name]
  {
    hide SplitLines, SplitOn, NamedFiles, ModifiedFiles, IsLineBreak;
    var named, ended := TARGET + name, TARGET + (name + "\r");
    assert named + "\r\n" + "" == named + "\r\n" == ended + "\n" + "";
    TargetUnbroken(name);
    SplitAtCrLf(named, "");
    SplitUnbroken("");
    assert [named] + [] == [named];
    OneName(named, name);
    NoLineFeed(named);
    CutAt(ended, "", '\n');
    Uncut("", '\n');
    OneName(ended, name + "\r");
    NamedConcat([ended], [""]);
    NoName();
  }

  /** The two failures on concrete diffs. */
  lemma {:induction false} DifferingDiffs()
    ensures var diff := "+x\U{2028}+++ b/../s";
            NamedFiles(SplitOn(diff, '\n')) == [] && ModifiedFiles(SplitLines(diff)) == ["../s"]
    ensures var diff := "+++ b/README.md\r\n";
            NamedFiles(SplitOn(diff, '\n')) == ["README.md\r"] && ModifiedFiles(SplitLines(diff)) == ["README.md"]
  {
    hide SplitLines, SplitOn, NamedFiles, ModifiedFiles;
    UncheckedName("+x", '\U{2028}', "../s");
    assert "+x\U{2028}+++ b/../s" == "+x" + ['\U{2028}'] + (TARGET + "../s");
    CarriageReturnKept("README.md");
    assert "+++ b/README.md\r\n" == TARGET + "README.md" + "\r\n";
    assert "README.md" + "\r" == "README.md\r";
  }
}
