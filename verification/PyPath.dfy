/** Path(name) for names with forward slashes: its parts and its last part. */
module PyPath {
  import opened Text

  /** The text cut at every occurrence of the separator. */
  function SplitOn(text: string, sep: char): (r: seq<string>)
    ensures r != []
  {
    var n := FirstIndex(text, c => c == sep);
    if n == |text| then [text] else [text[..n]] + SplitOn(text[n + 1..], sep)
  }

  /** Path(name).parts, without empty and dot components. */
  function Parts(name: string): (r: seq<string>)
    ensures "" !in r
  {
    Kept(SplitOn(name, '/'))
  }

  function Kept(parts: seq<string>): (r: seq<string>)
    ensures "" !in r
  {
    if parts == [] then []
    else (if parts[0] == "" || parts[0] == "." then [] else [parts[0]]) + Kept(parts[1..])
  }

  function Name(file: string): string {
    var parts := Parts(file);
    if parts == [] then "" else parts[|parts| - 1]
  }

  lemma {:induction false} NotFound(text: string, sep: char)
    requires sep !in text
    ensures FirstIndex(text, c => c == sep) == |text|
  {
  }

  /** A text that does not end in the separator ends like its last piece. */
  lemma {:induction false} LastPiece(text: string, sep: char)
    requires text != "" && text[|text| - 1] != sep
    ensures var pieces := SplitOn(text, sep);
            var last := pieces[|pieces| - 1];
            last != "" && last[|last| - 1] == text[|text| - 1]
    decreases |text|
  {
    hide SplitOn;
    if sep in text {
      var first, rest := FirstCut(text, sep);
      assert rest != "" && rest[|rest| - 1] == text[|text| - 1];
      LastPiece(rest, sep);
    } else {
      Uncut(text, sep);
    }
  }

  lemma {:induction false} KeptLast(parts: seq<string>)
    requires parts != [] && parts[|parts| - 1] != "" && parts[|parts| - 1] != "."
    ensures var kept := Kept(parts); kept != [] && kept[|kept| - 1] == parts[|parts| - 1]
  {
    if |parts| > 1 {
      KeptLast(parts[1..]);
    } else {
      assert parts[1..] == [];
    }
  }

  /** So does Path(name).name, unless the name ends in a dot or a slash. */
  lemma {:induction false} NameEndsAlike(file: string)
    requires file != "" && file[|file| - 1] != '/' && file[|file| - 1] != '.'
    ensures Name(file) != "" && Name(file)[|Name(file)| - 1] == file[|file| - 1]
  {
    LastPiece(file, '/');
    KeptLast(SplitOn(file, '/'));
  }

  /** Two parts between which slashes stand, one or two. */
  lemma {:induction false} TwoParts(first: string, second: string, slashes: string)
    requires first != "" && first != "." && '/' !in first && second != "" && second != "." && '/' !in second
    requires slashes == "/" || slashes == "//"
    ensures Parts(first + slashes + second) == [first, second]
  {
    hide SplitOn;
    var name := first + slashes + second;
    if slashes == "/" {
      CutAt(first, second, '/');
      Uncut(second, '/');
    } else {
      assert name == first + ['/'] + (['/'] + second);
      CutAt(first, ['/'] + second, '/');
      assert "" + ['/'] + second == ['/'] + second;
      CutAt("", second, '/');
      Uncut(second, '/');
      assert [first] + ([""] + [second]) == [first, "", second];
    }
    KeptParts(first, second);
  }

  lemma {:induction false} KeptParts(first: string, second: string)
    requires first != "" && first != "." && second != "" && second != "."
    ensures Kept([first] + [second]) == [first, second] && Kept([first, "", second]) == [first, second]
  {
    assert ([first] + [second])[1..] == [second] && [second][1..] == [];
    assert [first, "", second][1..] == ["", second] && ["", second][1..] == [second];
    assert Kept([second]) == [second] && Kept(["", second]) == [second];
  }

  lemma {:induction false} CutAt(first: string, rest: string, sep: char)
    requires sep !in first
    ensures SplitOn(first + [sep] + rest, sep) == [first] + SplitOn(rest, sep)
  {
    var text := first + ([sep] + rest);
    assert text == first + [sep] + rest;
    FirstIndexAfter(first, [sep] + rest, c => c == sep);
    assert text[..|first|] == first && text[|first| + 1..] == rest;
  }

  lemma {:induction false} Uncut(text: string, sep: char)
    requires sep !in text
    ensures SplitOn(text, sep) == [text]
  {
    NotFound(text, sep);
  }

  lemma {:induction false} KeptConcat(a: seq<string>, b: seq<string>)
    ensures Kept(a + b) == Kept(a) + Kept(b)
  {
    if a == [] {
      assert a + b == b;
    } else {
      assert (a + b)[1..] == a[1..] + b;
      KeptConcat(a[1..], b);
    }
  }

  /** A text that holds the separator, cut at its first one. */
  lemma {:induction false} FirstCut(text: string, sep: char) returns (first: string, rest: string)
    requires sep in text
    ensures text == first + [sep] + rest && sep !in first && |rest| < |text|
    ensures SplitOn(text, sep) == [first] + SplitOn(rest, sep)
  {
    var n := FirstIndex(text, c => c == sep);
    first, rest := text[..n], text[n + 1..];
    assert sep !in first;
  }

  /** A separator cuts, whatever stands on either side. */
  lemma {:induction false} CutConcat(before: string, after: string, sep: char)
    ensures SplitOn(before + [sep] + after, sep) == SplitOn(before, sep) + SplitOn(after, sep)
    decreases |before|
  {
    hide SplitOn;
    if sep in before {
      var first, rest := FirstCut(before, sep);
      assert before + [sep] + after == first + [sep] + (rest + [sep] + after);
      CutAt(first, rest + [sep] + after, sep);
      CutConcat(rest, after, sep);
      assert [first] + (SplitOn(rest, sep) + SplitOn(after, sep)) == [first] + SplitOn(rest, sep) + SplitOn(after, sep);
    } else {
      CutAt(before, after, sep);
      Uncut(before, sep);
    }
  }

  /** A directory between slashes is a part of the path, and so is one at either end. */
  lemma {:induction false} PartBetween(before: string, part: string, after: string)
    requires part != "" && part != "." && '/' !in part
    ensures part in Parts(before + "/" + part + "/" + after)
    ensures part in Parts(part + "/" + after) && part in Parts(before + "/" + part) && Parts(part) == [part]
  {
    hide SplitOn, Kept;
    Uncut(part, '/');
    OneKept(part);
    CutConcat(part, after, '/');
    CutConcat(before, part, '/');
    CutConcat(before, part + "/" + after, '/');
    assert before + "/" + part + "/" + after == before + ['/'] + (part + "/" + after);
    assert part + "/" + after == part + ['/'] + after && before + "/" + part == before + ['/'] + part;
    KeptConcat([part], SplitOn(after, '/'));
    KeptConcat(SplitOn(before, '/'), [part]);
    KeptConcat(SplitOn(before, '/'), [part] + SplitOn(after, '/'));
    assert [part][0] in [part];
  }

  lemma {:induction false} OneKept(part: string)
    requires part != "" && part != "."
    ensures Kept([part]) == [part]
  {
    assert [part][1..] == [];
  }
}
