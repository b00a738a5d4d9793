/** The context builder's byte budget: what it reads of each file, and how much the snippets hold in all. */
module ContextBudget {
  import opened PySeq

  /** A candidate file: its text as read, or an OSError. */
  datatype Source = Readable(path: string, text: string) | Unreadable(path: string)

  datatype Snippet = Snippet(path: string, content: string, startLine: int, endLine: int, truncated: bool)

  datatype Warning = LimitReached | UnableToRead(path: string)

  datatype Built = Built(snippets: seq<Snippet>, warnings: seq<Warning>) {
    function Then(more: Built): Built {
      Built(snippets + more.snippets, warnings + more.warnings)
    }
  }

  /** The octets of a character in UTF-8, section 3 of RFC 3629. */
  function CharBytes(c: char): (n: nat)
    ensures 1 <= n <= 4
  {
    var code := c as int;
    if code < 0x80 then 1 else if code < 0x800 then 2 else if code < 0x10000 then 3 else 4
  }

  function Bytes(s: string): (n: nat)
    ensures |s| <= n <= 4 * |s|
    decreases |s|
  {
    if s == "" then 0 else Bytes(s[..|s| - 1]) + CharBytes(s[|s| - 1])
  }

  function LineFeeds(s: string): nat {
    if s == "" then 0 else LineFeeds(s[..|s| - 1]) + if s[|s| - 1] == '\n' then 1 else 0
  }

  function SnippetOf(path: string, text: string, limit: int): (s: Snippet)
    ensures s.content <= text && s.path == path
    ensures limit >= 0 ==> |s.content| == Min(limit, |text|)
    ensures s.truncated <==> s.content != text
  {
    var content := Slice(text, limit);
    Snippet(path, content, 1, LineFeeds(content) + if content == "" then 0 else 1, |content| < |text|)
  }

  /** The snippets and warnings for these files with a number of bytes left. */
  function Fill(sources: seq<Source>, remaining: int, maxFileBytes: int): Built
    decreases |sources|
  {
    if sources == [] then Built([], [])
    else if remaining <= 0 then Built([], [LimitReached])
    else
      match sources[0]
      case Unreadable(path) =>
        var rest := Fill(sources[1..], remaining, maxFileBytes);
        Built(rest.snippets, [UnableToRead(path)] + rest.warnings)
      case Readable(path, text) =>
        var snippet := SnippetOf(path, text, Min(maxFileBytes, remaining));
        var rest := Fill(sources[1..], remaining - Bytes(snippet.content), maxFileBytes);
        Built([snippet] + rest.snippets, rest.warnings)
  }

  /** The reading loop of `build`. */
  method Build(candidates: seq<Source>, maxFilesToRead: int, maxContextBytes: int, maxFileBytes: int) returns (snippets: seq<Snippet>, warnings: seq<Warning>)
    ensures Built(snippets, warnings) == Fill(Slice(candidates, maxFilesToRead), maxContextBytes, maxFileBytes)
  {
    hide SnippetOf, Fill;
    snippets, warnings := [], [];
    var remaining := maxContextBytes;
    var relevant := Slice(candidates, maxFilesToRead);
    ghost var whole := Fill(relevant, maxContextBytes, maxFileBytes);
    var i := 0;
    while i < |relevant|
      invariant i <= |relevant|
      invariant Built(snippets, warnings).Then(Fill(relevant[i..], remaining, maxFileBytes)) == whole
    {
      FillNext(relevant, i, remaining, maxFileBytes, Built(snippets, warnings));
      if remaining <= 0 {
        warnings := warnings + [LimitReached];
        return;
      }
      match relevant[i] {
        case Unreadable(path) =>
          warnings := warnings + [UnableToRead(path)];
        case Readable(path, text) =>
          var snippet := SnippetOf(path, text, Min(maxFileBytes, remaining));
          remaining := remaining - Bytes(snippet.content);
          snippets := snippets + [snippet];
      }
      i := i + 1;
    }
    FillNothing(relevant[i..], remaining, maxFileBytes, Built(snippets, warnings));
  }

  lemma {:induction false} FillNothing(sources: seq<Source>, remaining: int, maxFileBytes: int, before: Built)
    requires sources == []
    ensures before.Then(Fill(sources, remaining, maxFileBytes)) == before
  {
  }

  /** What one turn of the loop adds to what was built before. */
  lemma {:induction false} FillNext(sources: seq<Source>, i: nat, remaining: int, maxFileBytes: int, before: Built)
    requires i < |sources|
    ensures before.Then(Fill(sources[i..], remaining, maxFileBytes))
         == if remaining <= 0 then before.(warnings := before.warnings + [LimitReached])
            else match sources[i]
              case Unreadable(path) =>
                before.(warnings := before.warnings + [UnableToRead(path)]).Then(Fill(sources[i + 1..], remaining, maxFileBytes))
              case Readable(path, text) =>
                var snippet := SnippetOf(path, text, Min(maxFileBytes, remaining));
                before.(snippets := before.snippets + [snippet])
                  .Then(Fill(sources[i + 1..], remaining - Bytes(snippet.content), maxFileBytes))
  {
    hide SnippetOf;
    assert sources[i..][1..] == sources[i + 1..];
    if remaining <= 0 {
      assert before.snippets + [] == before.snippets;
    }
  }

  /** The last line of a snippet, counted from 1: one more than the line feeds in it, and 0 when it is empty. */
  lemma {:induction false} EndLine(path: string, text: string, limit: int)
    ensures var s := SnippetOf(path, text, limit);
            s.startLine == 1 && s.endLine == if s.content == "" then 0 else 1 + |FeedsIn(s.content)|
  {
    FeedsCounted(Slice(text, limit));
  }

  ghost function FeedsIn(s: string): set<nat> {
    set i: nat | i < |s| && s[i] == '\n'
  }

  lemma {:induction false} FeedsCounted(s: string)
    ensures LineFeeds(s) == |FeedsIn(s)|
    decreases |s|
  {
    if s == "" {
      assert FeedsIn(s) == {};
    } else {
      var n := |s| - 1;
      FeedsCounted(s[..n]);
      assert FeedsIn(s) == FeedsIn(s[..n]) + if s[n] == '\n' then {n} else {};
    }
  }

  // ----- how much the snippets hold -----

  function TotalBytes(snippets: seq<Snippet>): nat {
    if snippets == [] then 0 else Bytes(snippets[0].content) + TotalBytes(snippets[1..])
  }

  function TotalChars(snippets: seq<Snippet>): nat {
    if snippets == [] then 0 else |snippets[0].content| + TotalChars(snippets[1..])
  }

  predicate Ascii(s: string) {
    forall i :: 0 <= i < |s| ==> s[i] as int < 0x80
  }

  lemma {:induction false} AsciiBytes(s: string)
    requires Ascii(s)
    ensures Bytes(s) == |s|
    decreases |s|
  {
    if s == "" {
    } else {
      AsciiBytes(s[..|s| - 1]);
    }
  }

  /**
   For every list of files and any non-negative per-file limit: at most as many characters as the budget, at most
   three bytes a character of the last snippet more than it, and for ASCII files at most the budget.
  */
  lemma {:induction false} WithinBudget(sources: seq<Source>, budget: int, maxFileBytes: nat)
    ensures var snippets := Fill(sources, budget, maxFileBytes).snippets;
            && TotalChars(snippets) <= Max(0, budget)
            && TotalBytes(snippets) <= Max(0, budget + 3 * Min(maxFileBytes, budget))
            && ((forall i :: 0 <= i < |sources| && sources[i].Readable? ==> Ascii(sources[i].text)) ==> TotalBytes(snippets) <= Max(0, budget))
    decreases |sources|
  {
    if sources == [] || budget <= 0 {
    } else {
      match sources[0]
      case Unreadable(_) =>
        WithinBudget(sources[1..], budget, maxFileBytes);
      case Readable(path, text) =>
        var snippet := SnippetOf(path, text, Min(maxFileBytes, budget));
        var left := budget - Bytes(snippet.content);
        WithinBudget(sources[1..], left, maxFileBytes);
        var rest := Fill(sources[1..], left, maxFileBytes).snippets;
        assert Fill(sources, budget, maxFileBytes).snippets == [snippet] + rest;
        assert ([snippet] + rest)[1..] == rest;
        if Ascii(text) {
          AsciiBytes(snippet.content);
        }
      }
  }

  function Repeated(c: char, n: nat): (s: string)
    ensures |s| == n && forall i :: 0 <= i < n ==> s[i] == c
  {
    seq(n, _ => c)
  }

  lemma {:induction false} RepeatedBytes(c: char, n: nat)
    ensures Bytes(Repeated(c, n)) == n * CharBytes(c)
    decreases n
  {
    if n == 0 {
    } else {
      assert Repeated(c, n)[..n - 1] == Repeated(c, n - 1);
      RepeatedBytes(c, n - 1);
    }
  }

  /** The byte bound is reached: one long file of characters outside the basic plane. */
  lemma {:induction false} BudgetOvershoot(budget: nat, maxFileBytes: nat)
    requires 0 < budget <= maxFileBytes
    ensures var text := Repeated('\U{10000}', budget);
            TotalBytes(Fill([Readable("f", text)], budget, maxFileBytes).snippets) == budget + 3 * Min(maxFileBytes, budget)
  {
    var text := Repeated('\U{10000}', budget);
    var sources := [Readable("f", text)];
    var snippet := SnippetOf("f", text, Min(maxFileBytes, budget));
    assert snippet.content == text;
    RepeatedBytes('\U{10000}', budget);
    assert Fill(sources[1..], budget - Bytes(text), maxFileBytes).snippets == [];
    assert Fill(sources, budget, maxFileBytes).snippets == [snippet];
    assert TotalBytes([snippet][1..]) == 0;
  }

  /** Files of one ASCII character each. */
  function OneByteFiles(n: nat): seq<Source> {
    if n == 0 then [] else [Readable("f", "x")] + OneByteFiles(n - 1)
  }

  lemma {:induction false} OneByteEach(n: nat, budget: int, maxFileBytes: nat)
    requires n <= budget && maxFileBytes > 0
    ensures TotalBytes(Fill(OneByteFiles(n), budget, maxFileBytes).snippets) == n
    decreases n
  {
    hide TotalBytes;
    if n == 0 {
      NoBytes();
    } else {
      var rest := OneByteFiles(n - 1);
      var sources := [Readable("f", "x")] + rest;
      assert sources[1..] == rest;
      FillFirst(sources, budget, maxFileBytes);
      RepeatedBytes('x', 1);
      assert Repeated('x', 1) == "x";
      assert SnippetOf("f", "x", Min(maxFileBytes, budget)).content == "x";
      OneByteEach(n - 1, budget - 1, maxFileBytes);
    }
  }

  lemma {:induction false} NoBytes()
    ensures TotalBytes([]) == 0
  {
  }

  lemma {:induction false} TotalBytesConcat(a: seq<Snippet>, b: seq<Snippet>)
    ensures TotalBytes(a + b) == TotalBytes(a) + TotalBytes(b)
  {
    hide Bytes;
    if a == [] {
      assert a + b == b;
    } else {
      assert (a + b)[1..] == a[1..] + b;
      TotalBytesConcat(a[1..], b);
    }
  }

  /** The byte bound is reached for every budget and every per-file limit. */
  lemma {:induction false} OvershootReached(budget: nat, maxFileBytes: nat)
    requires budget > 0 && maxFileBytes > 0
    ensures exists sources: seq<Source> ::
              TotalBytes(Fill(sources, budget, maxFileBytes).snippets) == budget + 3 * Min(maxFileBytes, budget)
  {
    hide Fill, TotalBytes;
    if budget <= maxFileBytes {
      BudgetOvershoot(budget, maxFileBytes);
    } else {
      var small := OneByteFiles(budget - maxFileBytes);
      var text := Repeated('\U{10000}', maxFileBytes);
      OneByteEach(budget - maxFileBytes, budget, maxFileBytes);
      FillConcat(small, [Readable("f", text)], budget, maxFileBytes);
      BudgetOvershoot(maxFileBytes, maxFileBytes);
      var first, last := Fill(small, budget, maxFileBytes), Fill([Readable("f", text)], maxFileBytes, maxFileBytes);
      TotalBytesConcat(first.snippets, last.snippets);
      assert TotalBytes(Fill(small + [Readable("f", text)], budget, maxFileBytes).snippets) == budget + 3 * maxFileBytes;
    }
  }

  /** A negative per-file limit counts from the end of the file, so no budget bounds what is read. */
  lemma {:induction false} NegativeLimit(budget: nat, maxFileBytes: int, excess: nat)
    requires budget > 0 && maxFileBytes < 0
    ensures var text := Repeated('x', budget + excess - maxFileBytes);
            TotalChars(Fill([Readable("f", text)], budget, maxFileBytes).snippets) == budget + excess
  {
    var text := Repeated('x', budget + excess - maxFileBytes);
    var sources := [Readable("f", text)];
    var snippet := SnippetOf("f", text, Min(maxFileBytes, budget));
    assert Fill(sources[1..], budget - Bytes(snippet.content), maxFileBytes).snippets == [];
    assert Fill(sources, budget, maxFileBytes).snippets == [snippet];
    assert TotalChars([snippet][1..]) == 0;
  }

  /** So the character budget holds for every list of files exactly when the per-file limit is not negative. */
  lemma {:induction false} BudgetHeldIff(budget: int, maxFileBytes: int)
    ensures (forall sources: seq<Source> :: TotalChars(Fill(sources, budget, maxFileBytes).snippets) <= Max(0, budget))
            <==> maxFileBytes >= 0 || budget <= 0
  {
    if maxFileBytes >= 0 {
      forall sources: seq<Source>
        ensures TotalChars(Fill(sources, budget, maxFileBytes).snippets) <= Max(0, budget)
      {
        WithinBudget(sources, budget, maxFileBytes);
      }
    } else if budget > 0 {
      NegativeLimit(budget, maxFileBytes, 1);
    }
  }

  /**
   Files are taken in order while budget is left: once these files leave some, the next ones are read with exactly
   what they leave.
  */
  lemma {:induction false} FillConcat(a: seq<Source>, b: seq<Source>, budget: int, maxFileBytes: int)
    requires budget - TotalBytes(Fill(a, budget, maxFileBytes).snippets) > 0
    ensures var first := Fill(a, budget, maxFileBytes);
            var rest := Fill(b, budget - TotalBytes(first.snippets), maxFileBytes);
            Fill(a + b, budget, maxFileBytes) == first.Then(rest)
    decreases |a|
  {
    hide SnippetOf, Bytes, FillHead, FillTail;
    if a == [] {
      assert a + b == b;
      var rest := Fill(b, budget, maxFileBytes);
      assert [] + rest.snippets == rest.snippets && [] + rest.warnings == rest.warnings;
    } else {
      assert (a + b)[0] == a[0] && (a + b)[1..] == a[1..] + b;
      var rest := FillTail(a, budget, maxFileBytes);
      SameFirst(a, a + b, budget, maxFileBytes);
      FillFirst(a, budget, maxFileBytes);
      FillFirst(a + b, budget, maxFileBytes);
      FillConcat(a[1..], b, rest, maxFileBytes);
      ThenThen(FillHead(a, budget, maxFileBytes), Fill(a[1..], rest, maxFileBytes),
               Fill(b, rest - TotalBytes(Fill(a[1..], rest, maxFileBytes).snippets), maxFileBytes));
    }
  }

  /** What the first file contributes. */
  function FillHead(sources: seq<Source>, remaining: int, maxFileBytes: int): Built
    requires sources != []
  {
    match sources[0]
    case Unreadable(path) => Built([], [UnableToRead(path)])
    case Readable(path, text) => Built([SnippetOf(path, text, Min(maxFileBytes, remaining))], [])
  }

  /** What it leaves of the budget. */
  function FillTail(sources: seq<Source>, remaining: int, maxFileBytes: int): int
    requires sources != []
  {
    match sources[0]
    case Unreadable(path) => remaining
    case Readable(path, text) => remaining - Bytes(SnippetOf(path, text, Min(maxFileBytes, remaining)).content)
  }

  lemma {:induction false} SameFirst(a: seq<Source>, b: seq<Source>, remaining: int, maxFileBytes: int)
    requires a != [] && b != [] && a[0] == b[0]
    ensures FillHead(a, remaining, maxFileBytes) == FillHead(b, remaining, maxFileBytes)
    ensures FillTail(a, remaining, maxFileBytes) == FillTail(b, remaining, maxFileBytes)
  {
  }

  lemma {:induction false} FillFirst(sources: seq<Source>, remaining: int, maxFileBytes: int)
    requires sources != [] && remaining > 0
    ensures var rest := Fill(sources[1..], FillTail(sources, remaining, maxFileBytes), maxFileBytes);
            && Fill(sources, remaining, maxFileBytes) == FillHead(sources, remaining, maxFileBytes).Then(rest)
            && TotalBytes(Fill(sources, remaining, maxFileBytes).snippets)
               == remaining - FillTail(sources, remaining, maxFileBytes) + TotalBytes(rest.snippets)
  {
    hide SnippetOf;
    var rest := Fill(sources[1..], FillTail(sources, remaining, maxFileBytes), maxFileBytes);
    match sources[0]
    case Unreadable(path) => assert [] + rest.snippets == rest.snippets;
    case Readable(path, text) =>
      assert [] + rest.warnings == rest.warnings;
      assert ([SnippetOf(path, text, Min(maxFileBytes, remaining))] + rest.snippets)[1..] == rest.snippets;
  }

  lemma {:induction false} ThenThen(a: Built, b: Built, c: Built)
    ensures a.Then(b).Then(c) == a.Then(b.Then(c))
  {
    assert (a.snippets + b.snippets) + c.snippets == a.snippets + (b.snippets + c.snippets);
    assert (a.warnings + b.warnings) + c.warnings == a.warnings + (b.warnings + c.warnings);
  }
}
