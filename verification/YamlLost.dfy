/**
 What a lost mapping line does to the text after it: nothing, unless a list item comes before the next mapping line.
*/
module YamlLost {
  import opened Results
  import opened Text
  import opened PyDict
  import opened YamlSyntax
  import opened YamlTree
  import opened YamlRoundTrip
  import opened YamlLoss

  /** The result of the remaining lines: the whole mapping, or the error. */
  function Outcome(st: State, lines: seq<Line>): Result<seq<Entry<Tree>>, YamlError>
    requires Valid(st)
  {
    match Run(st, lines)
    case Ok(last) => Ok(Finish(last))
    case Err(e) => Err(e)
  }

  // ----- states that differ only below a detached frame -----

  predicate Alike(s: seq<Frame>, t: seq<Frame>, i: nat) {
    && 0 < i < |s| && i < |t|
    && s[..i] == t[..i]
    && s[i].detached && t[i].detached && s[i].indent == t[i].indent
  }

  /** Both wait for list items, under keys of the same indent below the detached frame, or neither does. */
  predicate SamePending(s: State, t: State, i: nat)
    requires i < |s.frames| && i < |t.frames|
  {
    && s.pending == t.pending
    && (s.pending ==> |s.frames| > i + 1 && |t.frames| > i + 1
                      && s.frames[|s.frames| - 1].indent == t.frames[|t.frames| - 1].indent)
  }

  ghost predicate Synced(s: State, t: State, i: nat) {
    Alike(s.frames, t.frames, i) && SamePending(s, t, i)
  }

  /** Closing frames keeps those below and what is detached. */
  lemma {:induction false} PopPrefix(frames: seq<Frame>, indent: int)
    requires frames != []
    ensures var r := PopTo(frames, indent);
            && (forall j :: 0 <= j < |r| ==> r[j].detached == frames[j].detached && r[j].indent == frames[j].indent
                                             && r[j].key == frames[j].key)
            && r[..|r| - 1] == frames[..|r| - 1]
    decreases |frames|
  {
    hide CloseLast;
    var n := |frames| - 1;
    if n > 0 && indent <= frames[n].indent {
      var closed := CloseLast(frames);
      ClosedAlike(frames);
      PopPrefix(closed, indent);
      var r := PopTo(closed, indent);
      assert PopTo(frames, indent) == r;
      assert closed[..|r| - 1] == closed[..n - 1][..|r| - 1] == frames[..n - 1][..|r| - 1] == frames[..|r| - 1];
    }
  }

  /** Closing one frame changes nothing but the entries of the frame below it. */
  lemma {:induction false} ClosedAlike(frames: seq<Frame>)
    requires |frames| >= 2
    ensures var closed, n := CloseLast(frames), |frames| - 1;
            && closed[..n - 1] == frames[..n - 1]
            && closed[n - 1] == frames[n - 1].(entries := closed[n - 1].entries)
  {
  }

  /** A line at or above a detached frame's indent closes it without a trace; a deeper one leaves it open. */
  lemma {:induction false} PopAtDetached(frames: seq<Frame>, i: nat, indent: int)
    requires ValidFrames(frames) && 0 < i < |frames| && frames[i].detached
    ensures if indent <= frames[i].indent then PopTo(frames, indent) == PopTo(frames[..i], indent)
            else i < |PopTo(frames, indent)|
    decreases |frames|
  {
    var n := |frames| - 1;
    var closed := CloseLast(frames);
    CloseLastValid(frames);
    if i == n {
      assert closed == frames[..n];
    } else if indent <= frames[n].indent {
      PopAtDetached(closed, i, indent);
      assert closed[..i] == frames[..i];
    } else {
      assert frames[i].indent < frames[n].indent;
    }
  }

  /** The next mapping line makes the two states agree: it closes the detached frame, or opens and writes below it. */
  lemma {:induction false} PairSyncs(s: State, t: State, i: nat, line: Line)
    requires Valid(s) && Valid(t) && Alike(s.frames, t.frames, i) && line.Pair?
    ensures Step(s, line).Ok? && Step(t, line).Ok?
    ensures Step(s, line).value == Step(t, line).value || Synced(Step(s, line).value, Step(t, line).value, i)
  {
    PopAtDetached(s.frames, i, line.indent);
    PopAtDetached(t.frames, i, line.indent);
    if line.indent > s.frames[i].indent {
      KeepsBelow(s, i, line);
      KeepsBelow(t, i, line);
    }
  }

  /** A mapping line below a detached frame keeps that frame, and what is under it. */
  lemma {:induction false} KeepsBelow(s: State, i: nat, line: Line)
    requires Valid(s) && 0 < i < |s.frames| && s.frames[i].detached && line.Pair?
    requires i < |PopTo(s.frames, line.indent)|
    ensures Step(s, line).Ok?
    ensures var next := Step(s, line).value;
            && i < |next.frames| && next.frames[..i] == s.frames[..i]
            && next.frames[i].detached && next.frames[i].indent == s.frames[i].indent
            && next.pending == line.value.None?
            && (next.pending ==> |next.frames| > i + 1 && next.frames[|next.frames| - 1].indent == line.indent)
  {
    hide PopTo;
    var open := PopTo(s.frames, line.indent);
    PopPrefix(s.frames, line.indent);
    assert open[..i] == open[..|open| - 1][..i] == s.frames[..|open| - 1][..i] == s.frames[..i];
    assert PutTop(open, line.key, WrittenValue(line.value))[..i] == open[..i];
  }

  /** An item that meets a pending key below the detached frame changes nothing outside it. */
  lemma {:induction false} ItemKeeps(s: State, i: nat, line: Line)
    requires Valid(s) && s.pending && 0 < i && i + 1 < |s.frames| && s.frames[i].detached && line.Item?
    requires line.indent > s.frames[|s.frames| - 1].indent
    ensures Step(s, line).Ok? && Valid(Step(s, line).value) && Synced(s, Step(s, line).value, i)
  {
    ItemValid(s, line.item);
    assert Step(s, line).value.frames[..i] == s.frames[..i];
  }

  lemma {:induction false} SyncedSymmetric(s: State, t: State, u: State, i: nat)
    requires Synced(s, t, i) && Synced(s, u, i)
    ensures Synced(t, u, i)
  {
  }

  /** Synced states are told apart by no continuation. */
  lemma {:induction false} SyncedOutcome(s: State, t: State, i: nat, lines: seq<Line>)
    requires Valid(s) && Valid(t) && Synced(s, t, i)
    ensures Outcome(s, lines) == Outcome(t, lines)
    decreases |lines|
  {
    hide Alike, AddItem, PopTo;
    if lines == [] {
      SameFinish(s, t, i);
    } else {
      StepValid(s, lines[0]);
      StepValid(t, lines[0]);
      match lines[0]
      case Blank => SyncedOutcome(s, t, i, lines[1..]);
      case NoColon(_) =>
      case Pair(_, _, _) =>
        PairSyncs(s, t, i, lines[0]);
        if Step(s, lines[0]).value != Step(t, lines[0]).value {
          SyncedOutcome(Step(s, lines[0]).value, Step(t, lines[0]).value, i, lines[1..]);
        }
      case Item(_, _) =>
        SyncedItem(s, t, i, lines[0]);
        if Step(s, lines[0]).Ok? {
          SyncedOutcome(Step(s, lines[0]).value, Step(t, lines[0]).value, i, lines[1..]);
        }
    }
  }

  lemma {:induction false} SyncedItem(s: State, t: State, i: nat, line: Line)
    requires Valid(s) && Valid(t) && Synced(s, t, i) && line.Item?
    ensures Step(s, line).Ok? == Step(t, line).Ok?
    ensures Step(s, line).Err? ==> Step(s, line) == Step(t, line)
    ensures Step(s, line).Ok? ==> Synced(Step(s, line).value, Step(t, line).value, i)
  {
    hide AddItem;
    StepValid(s, line);
    StepValid(t, line);
    if Refusal(s, line).None? {
      ItemKeeps(s, i, line);
      ItemKeeps(t, i, line);
      assert Synced(t, s, i);
      SyncedSymmetric(s, Step(s, line).value, t, i);
      assert Synced(t, Step(s, line).value, i);
      SyncedSymmetric(t, Step(s, line).value, Step(t, line).value, i);
    }
  }

  lemma {:induction false} SameFinish(s: State, t: State, i: nat)
    requires Valid(s) && Valid(t) && Alike(s.frames, t.frames, i)
    ensures Finish(s) == Finish(t)
  {
    FinishIgnoresDetached(s.frames, i);
    FinishIgnoresDetached(t.frames, i);
  }

  // ----- the continuation of a lost line -----

  function SkipBlanks(lines: seq<Line>): seq<Line> {
    if lines != [] && lines[0].Blank? then SkipBlanks(lines[1..]) else lines
  }

  lemma {:induction false} BlanksSkipped(st: State, lines: seq<Line>)
    requires Valid(st)
    ensures Outcome(st, lines) == Outcome(st, SkipBlanks(lines))
    ensures SkipBlanks(lines) == [] || !SkipBlanks(lines)[0].Blank?
  {
    hide Valid;
    if lines != [] && lines[0].Blank? {
      BlanksSkipped(st, lines[1..]);
    }
  }

  /** States alike below a detached frame are told apart only by a list item before the next mapping line. */
  lemma {:induction false} AlikeOutcome(s: State, t: State, i: nat, lines: seq<Line>)
    requires Valid(s) && Valid(t) && Alike(s.frames, t.frames, i)
    requires lines == [] || lines[0].Pair? || lines[0].NoColon?
    ensures Outcome(s, lines) == Outcome(t, lines)
  {
    hide Alike, ValidFrames, PopTo;
    if lines == [] {
      SameFinish(s, t, i);
    } else {
      StepValid(s, lines[0]);
      StepValid(t, lines[0]);
      if lines[0].Pair? {
        PairSyncs(s, t, i, lines[0]);
        if Step(s, lines[0]).value != Step(t, lines[0]).value {
          SyncedOutcome(Step(s, lines[0]).value, Step(t, lines[0]).value, i, lines[1..]);
        }
      }
    }
  }

  /** A lost line leaves the state alike, and its own key pending if it has no value. */
  lemma {:induction false} LostLineStep(st: State, line: Line) returns (i: nat)
    requires Valid(st) && line.Pair? && !AllAttached(PopTo(st.frames, line.indent))
    ensures Step(st, line).Ok? && Valid(Step(st, line).value)
    ensures var next := Step(st, line).value;
            && Alike(st.frames, next.frames, i) && next.pending == line.value.None?
            && (next.pending ==> |next.frames| > i + 1 && next.frames[|next.frames| - 1].indent == line.indent)
  {
    StepValid(st, line);
    var open := PopTo(st.frames, line.indent);
    PopToValid(st.frames, line.indent);
    PopPrefix(st.frames, line.indent);
    i := FirstDetached(open);
    KeepsBelow(st, i, line);
  }

  /**
   The exact effect of a lost line on the rest of the text. When no list item comes before the next mapping line the
   outcome is as if the line were not there, error or result. Otherwise a lost line with a value makes that item an
   error; one without refuses an item that is not indented below it, and swallows an item that is.
  */
  lemma {:induction false} LostLineEffect(st: State, line: Line, rest: seq<Line>)
    requires Valid(st) && line.Pair? && !AllAttached(PopTo(st.frames, line.indent))
    ensures var next := SkipBlanks(rest);
            Outcome(st, [line] + rest)
            == if next == [] || !next[0].Item? then Outcome(st, rest)
               else if line.value.Some? then Err(ListItemWithoutParentKey)
               else if next[0].indent <= line.indent then Err(InvalidListIndentation)
               else Outcome(st, [line] + next[1..])
  {
    hide Alike, ValidFrames, PopTo, AllAttached, SkipBlanks;
    var i := LostLineStep(st, line);
    var after := Step(st, line).value;
    RunFirst(st, line, rest);
    var next := SkipBlanks(rest);
    BlanksSkipped(after, rest);
    BlanksSkipped(st, rest);
    assert Outcome(st, [line] + rest) == Outcome(after, next);
    if next == [] || !next[0].Item? {
      AlikeOutcome(st, after, i, next);
    } else {
      StepValid(after, next[0]);
      if line.value.None? && next[0].indent > line.indent {
        SwallowedItem(st, after, i, next[0]);
        SyncedOutcome(after, Step(after, next[0]).value, i, next[1..]);
        RunFirst(st, line, next[1..]);
      }
    }
  }

  lemma {:induction false} SwallowedItem(st: State, after: State, i: nat, item: Line)
    requires Valid(after) && Alike(st.frames, after.frames, i) && after.pending && |after.frames| > i + 1 && item.Item?
    requires item.indent > after.frames[|after.frames| - 1].indent
    ensures Step(after, item).Ok? && Valid(Step(after, item).value) && Synced(after, Step(after, item).value, i)
  {
    ItemKeeps(after, i, item);
  }

  // ----- on concrete texts -----

  const KEY_A := Pair(0, "a", None)
  const ITEM_1 := Item(2, SInt(1))
  const PAIR_B := Pair(2, "b", Some(SInt(2)))
  const ITEM_3 := Item(2, SInt(3))

  /** The state after a key and one or more list items under it. */
  function Listed(items: seq<Scalar>): State {
    State([Frame(-1, "", [Entry("a", Items(items))], false), Frame(0, "a", [], true)], true)
  }

  lemma {:induction false} AfterKey()
    ensures var next := State([Frame(-1, "", [Entry("a", Node([]))], false), Frame(0, "a", [], false)], true);
            Step(START, KEY_A) == Ok(next) && Valid(next)
  {
    StepValid(START, KEY_A);
    var next := State([Frame(-1, "", [Entry("a", Node([]))], false), Frame(0, "a", [], false)], true);
    assert PopTo(START.frames, 0) == START.frames;
    assert PutTop(START.frames, "a", Node([])) + [Frame(0, "a", [], false)] == next.frames;
  }

  /** The list that a further item leaves in the place of the mapping, or of the list so far. */
  lemma {:induction false} ItemTaken(frames: seq<Frame>, items: seq<Scalar>, item: Scalar)
    requires |frames| == 2 && frames[1].key == "a"
    requires frames[0].entries == [Entry("a", if items == [] then Node([]) else Items(items))]
    ensures AddItem(frames, item)
         == Ok([frames[0].(entries := [Entry("a", Items(items + [item]))]), frames[1].(detached := true)])
  {
    var es := frames[0].entries;
    assert Get<Tree>(es, "a") == Some(if items == [] then Node([]) else Items(items));
    assert es[1..] == [];
    assert Put(es, "a", Items(items + [item])) == [Entry("a", Items(items + [item]))];
    var taken := items + [item];
    assert items == [] ==> taken == [item];
    assert AttachItems(frames, taken) == [frames[0].(entries := [Entry("a", Items(taken))]), frames[1].(detached := true)];
    assert AddItem(frames, item) == Ok(AttachItems(frames, taken));
  }

  lemma {:induction false} OneMore(st: State, items: seq<Scalar>, n: int)
    requires Valid(st) && st.pending && |st.frames| == 2
    requires st.frames[0] == Frame(-1, "", [Entry("a", if items == [] then Node([]) else Items(items))], false)
    requires st.frames[1].indent == 0 && st.frames[1].key == "a" && st.frames[1].entries == []
    ensures Step(st, Item(2, SInt(n))) == Ok(Listed(items + [SInt(n)])) && Valid(Listed(items + [SInt(n)]))
  {
    hide AddItem, ValidFrames;
    ItemTaken(st.frames, items, SInt(n));
    StepValid(st, Item(2, SInt(n)));
  }

  /** "a:" and the item 1 below it, before whatever follows. */
  lemma {:induction false} AfterList(rest: seq<Line>)
    ensures Valid(Listed([SInt(1)])) && Outcome(START, [KEY_A] + ([ITEM_1] + rest)) == Outcome(Listed([SInt(1)]), rest)
  {
    hide Valid, Step;
    AfterKey();
    var st := Step(START, KEY_A).value;
    RunFirst(START, KEY_A, [ITEM_1] + rest);
    OneMore(st, [], 1);
    assert [] + [SInt(1)] == [SInt(1)];
    RunFirst(st, ITEM_1, rest);
  }

  lemma {:induction false} FinishListed(items: seq<Scalar>)
    requires Valid(Listed(items))
    ensures Finish(Listed(items)) == [Entry("a", Items(items))] && Outcome(Listed(items), []) == Ok([Entry("a", Items(items))])
    ensures !AllAttached(PopTo(Listed(items).frames, 2))
  {
    var frames := Listed(items).frames;
    assert CloseLast(frames) == [Frame(-1, "", [Entry("a", Items(items))], false)];
    assert frames[1].detached && PopTo(frames, 2) == frames;
    assert PopTo(CloseLast(frames), 0) == CloseLast(frames);
    assert PopTo(frames, 0) == CloseLast(frames);
  }

  /** On parsed lines: b is lost at the end of the text, and turns an item after it into an error. */
  lemma {:induction false} LostLineRuns()
    ensures Outcome(START, [KEY_A] + ([ITEM_1] + [PAIR_B])) == Ok([Entry("a", Items([SInt(1)]))])
    ensures Outcome(START, [KEY_A] + ([ITEM_1] + ([PAIR_B] + [ITEM_3]))) == Err(ListItemWithoutParentKey)
    ensures Outcome(START, [KEY_A] + ([ITEM_1] + [ITEM_3])) == Ok([Entry("a", Items([SInt(1), SInt(3)]))])
  {
    hide Run, Finish, Step, Valid, AllAttached, PopTo;
    var st := Listed([SInt(1)]);
    AfterList([PAIR_B]);
    AfterList([PAIR_B] + [ITEM_3]);
    AfterList([ITEM_3]);
    FinishListed([SInt(1)]);
    LostLineEffect(st, PAIR_B, []);
    assert [PAIR_B] + [] == [PAIR_B];
    LostLineEffect(st, PAIR_B, [ITEM_3]);
    OneMore(st, [SInt(1)], 3);
    assert [SInt(1)] + [SInt(3)] == [SInt(1), SInt(3)];
    RunFirst(st, ITEM_3, []);
    assert [ITEM_3] + [] == [ITEM_3];
    FinishListed([SInt(1), SInt(3)]);
  }

  /** A text of printed lines is parsed as the lines they stand for. */
  lemma {:induction false} ParsePrinted(raw: seq<string>, lines: seq<Line>)
    requires Reads(raw, lines)
    ensures Parse(Unlines(raw)) == Outcome(START, lines)
  {
    hide Run;
    forall i | 0 <= i < |raw|
      ensures NoneOf(raw[i], IsLineBreak)
    {
      assert Means(raw[i], lines[i]);
    }
    SplitLinesOfUnlines(raw);
    assert ReadLines(raw) == lines by {
      forall i | 0 <= i < |raw|
        ensures ReadLine(raw[i]) == lines[i]
      {
        assert Means(raw[i], lines[i]);
      }
    }
  }

  /** The key b under the list of a is accepted and disappears; with an item after it the text is refused. */
  lemma {:induction false} LostLineExample()
    ensures Parse("a:\n  - 1\n  b: 2\n") == Ok([Entry("a", Items([SInt(1)]))])
    ensures Parse("a:\n  - 1\n  b: 2\n  - 3\n") == Err(ListItemWithoutParentKey)
    ensures Parse("a:\n  - 1\n  - 3\n") == Ok([Entry("a", Items([SInt(1), SInt(3)]))])
  {
    hide Parse, Unlines;
    Parsed();
    TextLost();
    TextRefused();
    TextKept();
  }

  const TEXT_A := "a:"
  const TEXT_1 := "  - 1"
  const TEXT_B := "  b: 2"
  const TEXT_3 := "  - 3"

  lemma {:induction false} LinesRead()
    ensures Means(TEXT_A, KEY_A) && Means(TEXT_1, ITEM_1) && Means(TEXT_B, PAIR_B) && Means(TEXT_3, ITEM_3)
  {
    hide Means;
    PrintedLinesRead(0, "a", SInt(1));
    PrintedLinesRead(2, "b", SInt(1));
    PrintedLinesRead(2, "b", SInt(2));
    PrintedLinesRead(2, "b", SInt(3));
    assert Spaces(0) == "" && Spaces(2) == "  ";
    assert IntToString(1) == "1" && IntToString(2) == "2" && IntToString(3) == "3";
    assert TEXT_A == KeyLine(0, "a") && TEXT_1 == ItemLine(2, SInt(1));
    assert TEXT_B == PairLine(2, "b", SInt(2)) && TEXT_3 == ItemLine(2, SInt(3));
  }

  lemma {:induction false} ReadTogether(raw: seq<string>, lines: seq<Line>)
    requires Reads(raw, lines)
    ensures Parse(Unlines([TEXT_A] + ([TEXT_1] + raw))) == Outcome(START, [KEY_A] + ([ITEM_1] + lines))
  {
    hide Parse, Run, Outcome, Unlines, Means;
    LinesRead();
    ReadsCons(TEXT_1, ITEM_1, raw, lines);
    ReadsCons(TEXT_A, KEY_A, [TEXT_1] + raw, [ITEM_1] + lines);
    ParsePrinted([TEXT_A] + ([TEXT_1] + raw), [KEY_A] + ([ITEM_1] + lines));
  }

  lemma {:induction false} UnlinesCons(line: string, rest: seq<string>)
    ensures Unlines([line] + rest) == line + "\n" + Unlines(rest)
    ensures Unlines([]) == ""
  {
    assert ([line] + rest)[1..] == rest;
  }

  lemma {:induction false} Parsed()
    ensures Parse(Unlines([TEXT_A] + ([TEXT_1] + [TEXT_B]))) == Ok([Entry("a", Items([SInt(1)]))])
    ensures Parse(Unlines([TEXT_A] + ([TEXT_1] + [TEXT_B, TEXT_3]))) == Err(ListItemWithoutParentKey)
    ensures Parse(Unlines([TEXT_A] + ([TEXT_1] + [TEXT_3]))) == Ok([Entry("a", Items([SInt(1), SInt(3)]))])
  {
    hide Parse, Run, Outcome, Unlines, Means;
    LostLineRuns();
    LinesRead();
    ReadTogether([TEXT_B], [PAIR_B]);
    ReadTogether([TEXT_B, TEXT_3], [PAIR_B, ITEM_3]);
    ReadTogether([TEXT_3], [ITEM_3]);
    assert [PAIR_B] + [ITEM_3] == [PAIR_B, ITEM_3];
  }

  lemma {:induction false} ThreeLines(a: string, b: string, c: string)
    ensures Unlines([a] + ([b] + [c])) == a + "\n" + (b + "\n" + (c + "\n"))
  {
    hide Unlines;
    assert [c] == [c] + [] && c + "\n" + "" == c + "\n";
    UnlinesCons(c, []);
    UnlinesCons(b, [c]);
    UnlinesCons(a, [b] + [c]);
  }

  lemma {:induction false} TextLost()
    ensures Unlines([TEXT_A] + ([TEXT_1] + [TEXT_B])) == "a:\n  - 1\n  b: 2\n"
  {
    hide Unlines;
    ThreeLines(TEXT_A, TEXT_1, TEXT_B);
  }

  lemma {:induction false} TextKept()
    ensures Unlines([TEXT_A] + ([TEXT_1] + [TEXT_3])) == "a:\n  - 1\n  - 3\n"
  {
    hide Unlines;
    ThreeLines(TEXT_A, TEXT_1, TEXT_3);
  }

  lemma {:induction false} TextRefused()
    ensures Unlines([TEXT_A] + ([TEXT_1] + [TEXT_B, TEXT_3])) == "a:\n  - 1\n  b: 2\n  - 3\n"
  {
    hide Unlines;
    ThreeLines(TEXT_1, TEXT_B, TEXT_3);
    assert [TEXT_B, TEXT_3] == [TEXT_B] + [TEXT_3];
    UnlinesCons(TEXT_A, [TEXT_1] + [TEXT_B, TEXT_3]);
  }
}
