/** One line of the simple YAML subset: scalars, and what a raw line says once comments and blanks are gone. */
module YamlSyntax {
  import opened Results
  import opened Text

  datatype Scalar = SBool(b: bool) | SNull | SInt(n: int) | SStr(s: string)

  /** Python's value[1:-1]. */
  function Unquote(value: string): string {
    if |value| < 2 then "" else value[1..|value| - 1]
  }

  function ParseScalar(value: string): Scalar {
    if Lower(value) == "true" then SBool(true)
    else if Lower(value) == "false" then SBool(false)
    else if Lower(value) == "null" || Lower(value) == "none" || Lower(value) == "~" then SNull
    else if StartsWith(value, "\"") && EndsWith(value, "\"") then SStr(Unquote(value))
    else if StartsWith(value, "'") && EndsWith(value, "'") then SStr(Unquote(value))
    else
      match ParseInt(value)
      case Some(n) => SInt(n)
      case None => SStr(value)
  }

  /** What a line means; a Pair without a value opens a nested block. */
  datatype Line =
    | Blank
    | Item(indent: nat, item: Scalar)
    | Pair(indent: nat, key: string, value: Option<Scalar>)
    | NoColon(indent: nat)

  function ReadLine(raw: string): Line {
    var line := RStrip(raw[..FirstIndex(raw, c => c == '#')]);
    if Strip(line) == "" then Blank else ReadBody(LeadingBlanks(line), Strip(line))
  }

  function ReadBody(indent: nat, stripped: string): Line {
    if StartsWith(stripped, "- ") then Item(indent, ParseScalar(Strip(stripped[2..])))
    else
      var colon := FirstIndex(stripped, c => c == ':');
      if colon == |stripped| then NoColon(indent)
      else
        var value := Strip(stripped[colon + 1..]);
        Pair(indent, Strip(stripped[..colon]), if value == "" then None else Some(ParseScalar(value)))
  }

  // ----- printing, and reading back what was printed -----

  function PrintScalar(v: Scalar): string {
    match v
    case SBool(b) => if b then "true" else "false"
    case SNull => "null"
    case SInt(n) => IntToString(n)
    case SStr(s) => "\"" + s + "\""
  }

  predicate NoBreakOrHash(s: string) {
    NoneOf(s, IsLineBreak) && '#' !in s
  }

  predicate ScalarOk(v: Scalar) {
    match v
    case SInt(n) => Printable(n)
    case SStr(s) => NoBreakOrHash(s)
    case _ => true
  }

  predicate KeyOk(key: string) {
    NoBreakOrHash(key) && Trimmed(key) && ':' !in key && !StartsWith(key, "- ")
  }

  predicate OneLine(s: string) {
    NoneOf(s, IsLineBreak)
  }

  function KeyLine(indent: nat, key: string): string {
    Spaces(indent) + (key + ":")
  }

  function PairLine(indent: nat, key: string, v: Scalar): string {
    Spaces(indent) + (key + ": " + PrintScalar(v))
  }

  function ItemLine(indent: nat, v: Scalar): string {
    Spaces(indent) + ("- " + PrintScalar(v))
  }

  lemma {:induction false} ParseQuoted(t: string)
    ensures ParseScalar("\"" + t + "\"") == SStr(t)
  {
    var s := "\"" + t + "\"";
    assert Lower(s)[0] == '"';
    assert s[..1] == "\"" && s[|s| - 1..] == "\"";
    assert s[1..|s| - 1] == t;
  }

  lemma {:induction false} ParsePlain(s: string)
    requires s != "" && (s[0] == '-' || IsDigit(s[0]))
    ensures ParseScalar(s) == match ParseInt(s) case Some(n) => SInt(n) case None => SStr(s)
  {
    assert Lower(s)[0] == s[0];
    assert s[..1][0] == s[0];
  }

  lemma {:induction false} PrintedInt(n: int)
    requires Printable(n)
    ensures var s := IntToString(n); s != "" && Trimmed(s) && NoBreakOrHash(s) && ParseScalar(s) == SInt(n)
  {
    DigitsOnly(n);
    ParsePlain(IntToString(n));
    ParseIntOfIntToString(n);
  }

  lemma {:induction false} ParseWords()
    ensures ParseScalar("true") == SBool(true) && ParseScalar("false") == SBool(false) && ParseScalar("null") == SNull
  {
    assert Lower("true") == "true" && Lower("false") == "false" && Lower("null") == "null";
  }

  lemma {:induction false} PrintedScalar(v: Scalar)
    requires ScalarOk(v)
    ensures PrintScalar(v) != "" && Trimmed(PrintScalar(v)) && NoBreakOrHash(PrintScalar(v))
    ensures ParseScalar(PrintScalar(v)) == v
  {
    hide ParseScalar, IntToString;
    match v
    case SBool(b) => ParseWords();
    case SNull => ParseWords();
    case SInt(n) => PrintedInt(n);
    case SStr(t) => ParseQuoted(t);
  }

  lemma {:induction false} DigitsOnly(n: int)
    ensures NoBreakOrHash(IntToString(n))
  {
    var s := IntToString(n);
    assert forall i :: 0 <= i < |s| ==> s[i] == '-' || IsDigit(s[i]);
  }

  lemma {:induction false} ReadPadded(n: nat, body: string)
    requires body != "" && Trimmed(body) && '#' !in body
    ensures ReadLine(Spaces(n) + body) == ReadBody(n, body)
  {
    var raw := Spaces(n) + body;
    var hash := (c: char) => c == '#';
    assert FirstIndex(raw, hash) == |raw| by {
      assert forall i :: 0 <= i < |raw| ==> raw[i] == (if i < n then ' ' else body[i - n]);
    }
    assert raw[..|raw|] == raw;
    assert raw[|raw| - 1] == body[|body| - 1];
    assert RStrip(raw) == raw;
    StripOfPadded(n, body);
    LeadingBlanksOfPadded(n, body);
  }

  lemma {:induction false} ColonAfterKey(key: string, rest: string)
    requires KeyOk(key) && rest != "" && rest[0] == ':'
    ensures FirstIndex(key + rest, c => c == ':') == |key|
    ensures !StartsWith(key + rest, "- ")
    ensures Strip((key + rest)[..|key|]) == key
  {
    FirstIndexAfter(key, rest, c => c == ':');
    var body := key + rest;
    if |body| >= 2 && |key| >= 2 {
      assert body[..2] == key[..2];
    } else if |body| >= 2 {
      assert body[0] == ':' || body[1] == ':';
      assert body[..2][0] == body[0] && body[..2][1] == body[1];
    }
    assert body[..|key|] == key;
    StripOfPadded(0, key);
    assert Spaces(0) + key == key;
  }

  lemma {:induction false} ReadBodyPair(n: nat, key: string, rest: string)
    requires KeyOk(key) && rest != "" && rest[0] == ':'
    ensures ReadBody(n, key + rest)
         == Pair(n, key, if Strip(rest[1..]) == "" then None else Some(ParseScalar(Strip(rest[1..]))))
  {
    ColonAfterKey(key, rest);
    assert (key + rest)[|key| + 1..] == rest[1..];
  }

  lemma {:induction false} ReadKeyLine(n: nat, key: string)
    requires KeyOk(key)
    ensures ReadLine(KeyLine(n, key)) == Pair(n, key, None)
  {
    ReadPadded(n, key + ":");
    ReadBodyPair(n, key, ":");
    assert Strip(":"[1..]) == "";
  }

  lemma {:induction false} PairBody(key: string, v: Scalar)
    requires KeyOk(key) && ScalarOk(v)
    ensures var body := key + ": " + PrintScalar(v);
            body == key + (": " + PrintScalar(v)) && body != "" && Trimmed(body) && '#' !in body
  {
    PrintedScalar(v);
    var p := PrintScalar(v);
    var body := key + ": " + p;
    assert body[|body| - 1] == p[|p| - 1];
    assert body[0] == if key == "" then ':' else key[0];
  }

  lemma {:induction false} ReadPairLine(n: nat, key: string, v: Scalar)
    requires KeyOk(key) && ScalarOk(v)
    ensures ReadLine(PairLine(n, key, v)) == Pair(n, key, Some(v))
  {
    hide ParseScalar, PrintScalar, ReadLine, ReadBody, Strip, KeyOk, NoBreakOrHash;
    PrintedScalar(v);
    var p := PrintScalar(v);
    PairBody(key, v);
    ReadPadded(n, key + ": " + p);
    ReadBodyPair(n, key, ": " + p);
    assert (": " + p)[1..] == Spaces(1) + p;
    StripOfPadded(1, p);
  }

  lemma {:induction false} ReadItemLine(n: nat, v: Scalar)
    requires ScalarOk(v)
    ensures ReadLine(ItemLine(n, v)) == Item(n, v)
  {
    hide PrintScalar, IntToString;
    PrintedScalar(v);
    var p := PrintScalar(v);
    var body := "- " + p;
    assert body[|body| - 1] == p[|p| - 1];
    ReadPadded(n, body);
    assert body[..2] == "- " && body[2..] == p;
    StripOfPadded(0, p);
    assert Spaces(0) + p == p;
  }

  lemma {:induction false} OneLinePadded(n: nat, a: string, sep: string, b: string)
    requires OneLine(a) && OneLine(sep) && OneLine(b)
    ensures OneLine(Spaces(n) + (a + sep + b))
  {
  }

  lemma {:induction false} PrintedLinesAreLines(n: nat, key: string, v: Scalar)
    requires KeyOk(key) && ScalarOk(v)
    ensures OneLine(KeyLine(n, key)) && OneLine(PairLine(n, key, v)) && OneLine(ItemLine(n, v))
  {
    PrintedScalar(v);
    OneLinePadded(n, key, ":", "");
    assert key + ":" + "" == key + ":";
    OneLinePadded(n, key, ": ", PrintScalar(v));
    OneLinePadded(n, "- ", PrintScalar(v), "");
    assert "- " + PrintScalar(v) + "" == "- " + PrintScalar(v);
  }
}
