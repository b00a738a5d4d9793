/**
 The indent-stack parser on values: every open mapping is a frame that carries its own entries,
 and a mapping's entries reach its parent when the frame is closed.
 YamlParser proves that the parser that mutates shared dicts computes this.
*/
module YamlTree {
  import opened Results
  import opened Text
  import opened PyDict
  import opened YamlSyntax

  datatype Tree = Leaf(v: Scalar) | Items(items: seq<Scalar>) | Node(entries: seq<Entry<Tree>>)

  datatype YamlError =
    | ListItemWithoutParentKey
    | InvalidListIndentation
    | MixedMappingList
    | InvalidIndentation
    | InvalidLine
    | MappingUnderList

  /**
   An open mapping: the indent of its key line, its key in the parent, its entries so far, and whether
   list items have already taken its place in the parent (then its own entries can no longer be reached).
  */
  datatype Frame = Frame(indent: int, key: string, entries: seq<Entry<Tree>>, detached: bool)

  /** pending: the newest frame was opened by the last mapping line, so list items may still follow. */
  datatype State = State(frames: seq<Frame>, pending: bool)

  const START := State([Frame(-1, "", [], false)], false)

  function Close(parent: Frame, child: Frame): Frame {
    if child.detached then parent else parent.(entries := Put(parent.entries, child.key, Node(child.entries)))
  }

  function CloseLast(frames: seq<Frame>): (r: seq<Frame>)
    requires |frames| >= 2
    ensures |r| == |frames| - 1
  {
    var n := |frames| - 1;
    frames[..n - 1] + [Close(frames[n - 1], frames[n])]
  }

  /** Close every frame that a line at this indent ends. */
  function PopTo(frames: seq<Frame>, indent: int): (r: seq<Frame>)
    requires frames != []
    ensures r != [] && |r| <= |frames|
    decreases |frames|
  {
    var n := |frames| - 1;
    if n > 0 && indent <= frames[n].indent then
      PopTo(CloseLast(frames), indent)
    else frames
  }

  function PutTop(frames: seq<Frame>, key: string, value: Tree): (r: seq<Frame>)
    requires frames != []
    ensures |r| == |frames|
  {
    var n := |frames| - 1;
    frames[n := frames[n].(entries := Put(frames[n].entries, key, value))]
  }

  function AddItem(frames: seq<Frame>, item: Scalar): Result<seq<Frame>, YamlError>
    requires |frames| >= 2
  {
    var n := |frames| - 1;
    var parent, child := frames[n - 1], frames[n];
    match Get<Tree>(parent.entries, child.key)
    case Some(Items(xs)) => Ok(AttachItems(frames, xs + [item]))
    case Some(Leaf(SNull)) => Ok(AttachItems(frames, [item]))
    case Some(Leaf(_)) => Err(MixedMappingList)
    case Some(Node(es)) => if es == [] then Ok(AttachItems(frames, [item])) else Err(MixedMappingList)
    case None => Ok(AttachItems(frames, [item]))
  }

  function AttachItems(frames: seq<Frame>, items: seq<Scalar>): (r: seq<Frame>)
    requires |frames| >= 2
    ensures |r| == |frames|
  {
    var n := |frames| - 1;
    var parent, child := frames[n - 1], frames[n];
    frames[..n - 1] + [parent.(entries := Put(parent.entries, child.key, Items(items))), child.(detached := true)]
  }

  function Step(st: State, line: Line): Result<State, YamlError>
    requires st.frames != [] && (st.pending ==> |st.frames| >= 2)
  {
    match line
    case Blank => Ok(st)
    case Item(indent, item) =>
      if !st.pending then Err(ListItemWithoutParentKey)
      else if indent <= st.frames[|st.frames| - 1].indent then Err(InvalidListIndentation)
      else
        var frames :- AddItem(st.frames, item);
        Ok(State(frames, true))
    case NoColon(indent) => Err(InvalidLine)
    case Pair(indent, key, Some(v)) =>
      Ok(State(PutTop(PopTo(st.frames, indent), key, Leaf(v)), false))
    case Pair(indent, key, None) =>
      Ok(State(PutTop(PopTo(st.frames, indent), key, Node([])) + [Frame(indent, key, [], false)], true))
  }

  // ----- the invariant of every run -----

  /** The entry that stands in the parent for an open child. */
  predicate ChildEntry(parent: Frame, child: Frame) {
    match Get<Tree>(parent.entries, child.key)
    case Some(Items(xs)) => child.detached && xs != []
    case Some(Node(es)) => !child.detached && es == []
    case _ => false
  }

  /** Indents strictly increase from the root's -1; each open child stands in its parent; a pending child is untouched. */
  ghost predicate ValidFrames(frames: seq<Frame>) {
    && frames != []
    && frames[0].indent == -1 && !frames[0].detached
    && (forall i, j :: 0 <= i < j < |frames| ==> frames[i].indent < frames[j].indent)
    && (forall i :: 0 < i < |frames| ==> ChildEntry(frames[i - 1], frames[i]))
  }

  ghost predicate Valid(st: State) {
    && ValidFrames(st.frames)
    && (st.pending ==> |st.frames| >= 2 && st.frames[|st.frames| - 1].entries == [])
  }

  lemma {:induction false} CloseLastValid(frames: seq<Frame>)
    requires ValidFrames(frames) && |frames| >= 2
    ensures ValidFrames(CloseLast(frames))
  {
    var r := CloseLast(frames);
    forall i | 0 < i < |r|
      ensures ChildEntry(r[i - 1], r[i])
    {
      assert ChildEntry(frames[i - 1], frames[i]);
    }
  }

  lemma {:induction false} PopToValid(frames: seq<Frame>, indent: int)
    requires ValidFrames(frames) && 0 <= indent
    ensures ValidFrames(PopTo(frames, indent))
    ensures var r := PopTo(frames, indent); r[|r| - 1].indent < indent
    decreases |frames|
  {
    var n := |frames| - 1;
    if n > 0 && indent <= frames[n].indent {
      CloseLastValid(frames);
      PopToValid(CloseLast(frames), indent);
    }
  }

  lemma {:induction false} PutTopValid(frames: seq<Frame>, key: string, value: Tree)
    requires ValidFrames(frames)
    ensures ValidFrames(PutTop(frames, key, value))
  {
    var r := PutTop(frames, key, value);
    forall i | 0 < i < |r|
      ensures ChildEntry(r[i - 1], r[i])
    {
      assert ChildEntry(frames[i - 1], frames[i]);
    }
  }

  lemma {:induction false} PushValid(frames: seq<Frame>, indent: nat, key: string)
    requires ValidFrames(frames) && frames[|frames| - 1].indent < indent
    ensures ValidFrames(PutTop(frames, key, Node([])) + [Frame(indent, key, [], false)])
  {
    PutTopValid(frames, key, Node([]));
    var base := PutTop(frames, key, Node([]));
    var r := base + [Frame(indent, key, [], false)];
    GetPut(frames[|frames| - 1].entries, key, Node([]));
    forall i | 0 < i < |r|
      ensures ChildEntry(r[i - 1], r[i])
    {
      if i < |base| {
        assert ChildEntry(base[i - 1], base[i]);
      }
    }
  }

  lemma {:induction false} AttachValid(frames: seq<Frame>, items: seq<Scalar>)
    requires ValidFrames(frames) && |frames| >= 2 && items != []
    ensures ValidFrames(AttachItems(frames, items))
  {
    var n := |frames| - 1;
    var parent, child := frames[n - 1], frames[n];
    var r := AttachItems(frames, items);
    GetPut(parent.entries, child.key, Items(items));
    forall i | 0 < i < |r|
      ensures ChildEntry(r[i - 1], r[i])
    {
      assert ChildEntry(frames[i - 1], frames[i]);
    }
  }

  /** When a line is refused, and why. */
  function Refusal(st: State, line: Line): Option<YamlError>
    requires st.frames != []
  {
    match line
    case Item(indent, _) =>
      if !st.pending then Some(ListItemWithoutParentKey)
      else if indent <= st.frames[|st.frames| - 1].indent then Some(InvalidListIndentation)
      else None
    case NoColon(_) => Some(InvalidLine)
    case _ => None
  }

  lemma {:induction false} ItemValid(st: State, item: Scalar)
    requires Valid(st) && st.pending
    ensures AddItem(st.frames, item).Ok? && Valid(State(AddItem(st.frames, item).value, true))
  {
    var n := |st.frames| - 1;
    assert ChildEntry(st.frames[n - 1], st.frames[n]);
    match Get<Tree>(st.frames[n - 1].entries, st.frames[n].key)
    case Some(Items(xs)) => AttachValid(st.frames, xs + [item]);
    case _ => AttachValid(st.frames, [item]);
  }

  /**
   For every state a run can be in and every line: the line is refused for exactly the three listed reasons,
   and otherwise the invariant holds again. Mixed, misindented and mapping-under-list errors never happen.
  */
  lemma {:induction false} StepValid(st: State, line: Line)
    requires Valid(st)
    ensures match Refusal(st, line)
            case Some(e) => Step(st, line) == Err(e)
            case None => Step(st, line).Ok? && Valid(Step(st, line).value)
  {
    match line
    case Blank =>
    case NoColon(_) =>
    case Item(indent, item) =>
      if st.pending {
        ItemValid(st, item);
      }
    case Pair(indent, key, value) =>
      PopToValid(st.frames, indent);
      match value {
        case Some(v) => PutTopValid(PopTo(st.frames, indent), key, Leaf(v));
        case None => PushValid(PopTo(st.frames, indent), indent, key);
      }
  }

  // ----- the whole text -----

  function Run(st: State, lines: seq<Line>): (r: Result<State, YamlError>)
    requires Valid(st)
    ensures r.Ok? ==> Valid(r.value)
    ensures r.Err? ==> r.error in {ListItemWithoutParentKey, InvalidListIndentation, InvalidLine}
    decreases |lines|
  {
    if lines == [] then Ok(st)
    else
      StepValid(st, lines[0]);
      var next :- Step(st, lines[0]);
      Run(next, lines[1..])
  }

  function ReadLines(raw: seq<string>): (r: seq<Line>)
    ensures |r| == |raw| && forall i :: 0 <= i < |r| ==> r[i] == ReadLine(raw[i])
  {
    if raw == [] then [] else [ReadLine(raw[0])] + ReadLines(raw[1..])
  }

  /** The mapping the text denotes: the root's entries once every frame is closed. */
  function Finish(st: State): seq<Entry<Tree>>
    requires st.frames != []
  {
    PopTo(st.frames, 0)[0].entries
  }

  function Parse(text: string): Result<seq<Entry<Tree>>, YamlError> {
    var st :- Run(START, ReadLines(SplitLines(text)));
    Ok(Finish(st))
  }

  lemma {:induction false} RunFirst(st: State, line: Line, rest: seq<Line>)
    requires Valid(st) && Step(st, line).Ok? && Valid(Step(st, line).value)
    ensures Run(st, [line] + rest) == Run(Step(st, line).value, rest)
  {
    assert ([line] + rest)[1..] == rest;
  }

  lemma {:induction false} RunConcat(st: State, a: seq<Line>, b: seq<Line>)
    requires Valid(st)
    ensures Run(st, a + b) == match Run(st, a) case Ok(mid) => Run(mid, b) case Err(e) => Err(e)
    decreases |a|
  {
    if a == [] {
      assert a + b == b;
    } else {
      assert (a + b)[0] == a[0] && (a + b)[1..] == a[1..] + b;
      StepValid(st, a[0]);
      if Step(st, a[0]).Ok? {
        RunConcat(Step(st, a[0]).value, a[1..], b);
      }
    }
  }

  lemma {:induction false} PopToFurther(frames: seq<Frame>, inner: int, outer: int)
    requires frames != [] && outer <= inner
    ensures PopTo(PopTo(frames, inner), outer) == PopTo(frames, outer)
    decreases |frames|
  {
    var n := |frames| - 1;
    if n > 0 && inner <= frames[n].indent {
      PopToFurther(CloseLast(frames), inner, outer);
    }
  }
}
