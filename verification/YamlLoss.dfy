/**
 Which accepted mapping lines reach the result. Once list items have replaced a key's mapping, the parser keeps
 filling the replaced mapping: lines indented under it are accepted without an error and lost.
*/
module YamlLoss {
  import opened Results
  import opened PyDict
  import opened YamlSyntax
  import opened YamlTree

  function Lookup(es: seq<Entry<Tree>>, path: seq<string>): Option<Tree>
    requires path != []
  {
    match Get<Tree>(es, path[0])
    case None => None
    case Some(t) =>
      if |path| == 1 then Some(t)
      else if t.Node? then Lookup(t.entries, path[1..])
      else None
  }

  /** The keys of the open frames, outermost first. */
  function Keys(frames: seq<Frame>): seq<string>
    requires frames != []
  {
    if |frames| == 1 then [] else Keys(frames[..|frames| - 1]) + [frames[|frames| - 1].key]
  }

  predicate AllAttached(frames: seq<Frame>) {
    forall i :: 0 <= i < |frames| ==> !frames[i].detached
  }

  function FinishFrames(frames: seq<Frame>): seq<Entry<Tree>>
    requires frames != []
  {
    PopTo(frames, 0)[0].entries
  }

  lemma {:induction false} KeysOfClosed(frames: seq<Frame>)
    requires |frames| >= 2
    ensures Keys(CloseLast(frames)) == Keys(frames[..|frames| - 1])
  {
    var n := |frames| - 1;
    if n > 1 {
      assert CloseLast(frames)[..n - 1] == frames[..n][..n - 1];
    }
  }

  /** With every frame attached, the result at the frames' path is what the newest frame holds. */
  lemma {:induction false} LookupThroughFrames(frames: seq<Frame>, path: seq<string>)
    requires ValidFrames(frames) && AllAttached(frames) && path != []
    ensures Lookup(FinishFrames(frames), Keys(frames) + path) == Lookup(frames[|frames| - 1].entries, path)
    decreases |frames|
  {
    var n := |frames| - 1;
    if n == 0 {
      assert Keys(frames) + path == path;
    } else {
      var closed, child := CloseLast(frames), frames[n];
      CloseLastValid(frames);
      KeysOfClosed(frames);
      LookupThroughFrames(closed, [child.key] + path);
      GetPut(frames[n - 1].entries, child.key, Node(child.entries));
      assert ([child.key] + path)[1..] == path;
      assert Keys(frames) + path == Keys(closed) + ([child.key] + path);
      assert frames[0].indent < frames[n].indent;
    }
  }

  /** Nothing below a detached frame reaches the result. */
  lemma {:induction false} FinishIgnoresDetached(frames: seq<Frame>, i: nat)
    requires ValidFrames(frames) && 0 < i < |frames| && frames[i].detached
    ensures FinishFrames(frames) == FinishFrames(frames[..i])
    decreases |frames|
  {
    var n := |frames| - 1;
    var closed := CloseLast(frames);
    assert frames[0].indent < frames[n].indent;
    CloseLastValid(frames);
    if i == n {
      assert closed == frames[..n];
    } else {
      FinishIgnoresDetached(closed, i);
      assert closed[..i] == frames[..i];
    }
  }

  lemma {:induction false} PrefixValid(frames: seq<Frame>, i: nat)
    requires ValidFrames(frames) && 0 < i <= |frames|
    ensures ValidFrames(frames[..i])
  {
    forall j | 0 < j < i
      ensures ChildEntry(frames[..i][j - 1], frames[..i][j])
    {
      assert ChildEntry(frames[j - 1], frames[j]);
    }
  }

  lemma {:induction false} KeysSplit(frames: seq<Frame>, i: nat) returns (rest: seq<string>)
    requires 0 < i < |frames|
    ensures Keys(frames) == Keys(frames[..i]) + [frames[i].key] + rest
  {
    var n := |frames| - 1;
    if i == n {
      rest := [];
    } else {
      rest := KeysSplit(frames[..n], i);
      assert frames[..n][..i] == frames[..i];
      rest := rest + [frames[n].key];
    }
  }

  lemma {:induction false} FirstDetached(frames: seq<Frame>) returns (i: nat)
    requires ValidFrames(frames) && !AllAttached(frames)
    ensures 0 < i < |frames| && frames[i].detached && AllAttached(frames[..i])
  {
    i := 0;
    while !frames[i].detached
      invariant i < |frames| && forall j :: 0 <= j < i ==> !frames[j].detached
      decreases |frames| - i
    {
      i := i + 1;
    }
  }

  lemma {:induction false} LookupStopsAtList(frames: seq<Frame>, i: nat, key: string)
    requires ValidFrames(frames) && 0 < i < |frames| && frames[i].detached && AllAttached(frames[..i])
    ensures Lookup(FinishFrames(frames), Keys(frames) + [key]) == None
  {
    FinishIgnoresDetached(frames, i);
    PrefixValid(frames, i);
    var rest := KeysSplit(frames, i);
    var path := [frames[i].key] + rest + [key];
    LookupThroughFrames(frames[..i], path);
    assert Keys(frames) + [key] == Keys(frames[..i]) + path;
    assert ChildEntry(frames[i - 1], frames[i]);
  }

  function WrittenValue(value: Option<Scalar>): Tree {
    match value case Some(v) => Leaf(v) case None => Node([])
  }

  lemma {:induction false} FinishAfterPair(st: State, indent: nat, key: string, value: Option<Scalar>)
    requires Valid(st)
    ensures Step(st, Pair(indent, key, value)).Ok?
    ensures ValidFrames(PopTo(st.frames, indent))
    ensures Finish(Step(st, Pair(indent, key, value)).value)
         == FinishFrames(PutTop(PopTo(st.frames, indent), key, WrittenValue(value)))
  {
    var open := PopTo(st.frames, indent);
    PopToValid(st.frames, indent);
    if value.None? {
      var written := PutTop(open, key, Node([]));
      var pushed := written + [Frame(indent, key, [], false)];
      PutPut(open[|open| - 1].entries, key, Node([]), Node([]));
      assert CloseLast(pushed) == written;
    }
  }

  lemma {:induction false} LookupAfterPut(frames: seq<Frame>, key: string, value: Tree)
    requires ValidFrames(frames)
    ensures Lookup(FinishFrames(PutTop(frames, key, value)), Keys(frames) + [key])
         == if AllAttached(frames) then Some(value) else None
  {
    var written := PutTop(frames, key, value);
    PutTopValid(frames, key, value);
    KeysOfPutTop(frames, key, value);
    assert forall i :: 0 <= i < |frames| ==> written[i].detached == frames[i].detached;
    if AllAttached(frames) {
      LookupThroughFrames(written, [key]);
      GetPut(frames[|frames| - 1].entries, key, value);
    } else {
      var i := FirstDetached(frames);
      LookupStopsAtList(written, i, key);
    }
  }

  /**
   For every reachable state and every mapping line, which is always accepted: were the text to end with it, its value
   would be found at its path if and only if no mapping it is nested in has been replaced by list items.
  */
  lemma {:induction false} MappingLineKept(st: State, indent: nat, key: string, value: Option<Scalar>)
    requires Valid(st)
    ensures Step(st, Pair(indent, key, value)).Ok?
    ensures var open := PopTo(st.frames, indent);
            Lookup(Finish(Step(st, Pair(indent, key, value)).value), Keys(open) + [key]) == Some(WrittenValue(value))
            <==> AllAttached(open)
  {
    FinishAfterPair(st, indent, key, value);
    LookupAfterPut(PopTo(st.frames, indent), key, WrittenValue(value));
  }

  lemma {:induction false} KeysOfPutTop(frames: seq<Frame>, key: string, value: Tree)
    requires frames != []
    ensures Keys(PutTop(frames, key, value)) == Keys(frames)
  {
    var n := |frames| - 1;
    if n > 0 {
      assert PutTop(frames, key, value)[..n] == frames[..n];
    }
  }

  /** Were the text to end with it, a lost line would change nothing at all; YamlLost says what it does to a longer text. */
  lemma {:induction false} LostLineHasNoEffect(st: State, indent: nat, key: string, value: Option<Scalar>)
    requires Valid(st) && !AllAttached(PopTo(st.frames, indent))
    ensures Step(st, Pair(indent, key, value)).Ok?
    ensures Finish(Step(st, Pair(indent, key, value)).value) == Finish(st)
  {
    hide PutTop, AllAttached, ValidFrames, WrittenValue, Step;
    var open := PopTo(st.frames, indent);
    FinishAfterPair(st, indent, key, value);
    PopToValid(st.frames, indent);
    WrittenBelowDetached(open, key, WrittenValue(value));
    PopToFurther(st.frames, indent, 0);
  }

  lemma {:induction false} WrittenBelowDetached(open: seq<Frame>, key: string, value: Tree)
    requires ValidFrames(open) && !AllAttached(open)
    ensures FinishFrames(PutTop(open, key, value)) == FinishFrames(open)
  {
    hide FinishFrames;
    var written := PutTop(open, key, value);
    PutTopValid(open, key, value);
    var i := FirstDetached(open);
    assert written[i].detached;
    assert written[..i] == open[..i];
    FinishIgnoresDetached(written, i);
    FinishIgnoresDetached(open, i);
  }
}
