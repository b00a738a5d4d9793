/** Which mapping lines of a text are lost, said of its lines alone. */
module YamlLines {
  import opened Results
  import opened YamlSyntax
  import opened YamlTree
  import opened YamlLoss
  import opened YamlLost

  // ----- open keys -----

  /** A key line without a value. */
  predicate IsKey(lines: seq<Line>, q: nat) {
    q < |lines| && lines[q].Pair? && lines[q].value.None?
  }

  /** Every mapping line after q is indented more deeply. */
  predicate Open(lines: seq<Line>, q: nat) {
    IsKey(lines, q) && forall r :: q < r < |lines| && lines[r].Pair? ==> lines[q].indent < lines[r].indent
  }

  /** The key's mapping has been replaced: a list item follows it with no mapping line between. */
  predicate HoldsList(lines: seq<Line>, q: nat) {
    exists r :: q < r < |lines| && lines[r].Item? && forall t :: q < t < r ==> !lines[t].Pair?
  }

  /** The positions of the open keys, in order. */
  function Openers(lines: seq<Line>): seq<nat>
    decreases |lines|
  {
    if lines == [] then []
    else
      var n := |lines| - 1;
      match lines[n]
      case Pair(_, _, _) => Reopened(lines[..n], Openers(lines[..n]), lines[n])
      case _ => Openers(lines[..n])
  }

  /** Those of the positions whose line has a smaller indent, up to the first that has not. */
  function Above(openers: seq<nat>, lines: seq<Line>, indent: int): (r: seq<nat>)
    ensures r <= openers
    ensures forall j :: 0 <= j < |r| ==> r[j] < |lines| && lines[r[j]].Pair? && lines[r[j]].indent < indent
    ensures |r| < |openers| ==> !(openers[|r|] < |lines| && lines[openers[|r|]].Pair? && lines[openers[|r|]].indent < indent)
  {
    if openers == [] || !(openers[0] < |lines| && lines[openers[0]].Pair? && lines[openers[0]].indent < indent) then []
    else [openers[0]] + Above(openers[1..], lines, indent)
  }

  /** The frame of an open key. */
  predicate Stands(frame: Frame, lines: seq<Line>, q: nat) {
    && IsKey(lines, q)
    && frame.indent == lines[q].indent && frame.key == lines[q].key
    && (frame.detached <==> HoldsList(lines, q))
  }

  /** The state after these lines: one frame for every open key, and items allowed after the last one only. */
  ghost predicate Traces(st: State, lines: seq<Line>, openers: seq<nat>) {
    && |st.frames| == |openers| + 1
    && (forall j :: 0 <= j < |openers| ==> Stands(st.frames[j + 1], lines, openers[j]))
    && (forall i, j :: 0 <= i < j < |openers| ==> openers[i] < openers[j])
    && (st.pending <==> openers != [] && forall t :: openers[|openers| - 1] < t < |lines| ==> !lines[t].Pair?)
  }

  /** Closing the frames at an indent keeps exactly those below it. */
  lemma {:induction false} PopExactly(frames: seq<Frame>, indent: int)
    requires ValidFrames(frames) && 0 <= indent
    ensures var r := PopTo(frames, indent);
            && (forall j :: 0 <= j < |r| ==> frames[j].indent < indent && r[j].detached == frames[j].detached
                                             && r[j].indent == frames[j].indent && r[j].key == frames[j].key)
            && (forall j :: |r| <= j < |frames| ==> indent <= frames[j].indent)
  {
    hide PopTo;
    PopPrefix(frames, indent);
    PopToValid(frames, indent);
    PopClosed(frames, indent);
    var r := PopTo(frames, indent);
    assert r[|r| - 1].indent < indent;
    assert forall j :: 0 <= j < |r| ==> r[j].indent <= r[|r| - 1].indent;
  }

  lemma {:induction false} PopClosed(frames: seq<Frame>, indent: int)
    requires frames != []
    ensures forall j :: |PopTo(frames, indent)| <= j < |frames| ==> indent <= frames[j].indent
    decreases |frames|
  {
    var n := |frames| - 1;
    if n > 0 && indent <= frames[n].indent {
      var closed := CloseLast(frames);
      PopClosed(closed, indent);
      assert forall j :: 0 <= j < n ==> closed[j].indent == frames[j].indent;
    }
  }

  /** A line that is no mapping line adds a list to the last open key, if it is an item with no mapping line between. */
  lemma {:induction false} HoldsListNext(lines: seq<Line>, line: Line, q: nat)
    requires IsKey(lines, q)
    ensures IsKey(lines + [line], q) && (lines + [line])[q] == lines[q]
    ensures HoldsList(lines + [line], q)
            <==> HoldsList(lines, q) || (line.Item? && forall t :: q < t < |lines| ==> !lines[t].Pair?)
  {
    var all := lines + [line];
    if HoldsList(lines, q) {
      var r :| q < r < |lines| && lines[r].Item? && forall t :: q < t < r ==> !lines[t].Pair?;
      assert all[r] == lines[r] && forall t :: q < t < r ==> all[t] == lines[t];
    }
    if line.Item? && forall t :: q < t < |lines| ==> !lines[t].Pair? {
      assert all[|lines|] == line;
    }
    if HoldsList(all, q) {
      var r :| q < r < |all| && all[r].Item? && forall t :: q < t < r ==> !all[t].Pair?;
      assert forall t :: q < t < r ==> all[t] == lines[t];
      assert r < |lines| ==> all[r] == lines[r];
    }
  }

  lemma {:induction false} NewKeyEmpty(lines: seq<Line>, line: Line)
    requires line.Pair? && line.value.None?
    ensures IsKey(lines + [line], |lines|) && !HoldsList(lines + [line], |lines|)
  {
  }

  /** A blank line or an item. */
  lemma {:induction false} TraceOther(st: State, lines: seq<Line>, openers: seq<nat>, line: Line)
    requires Valid(st) && Traces(st, lines, openers) && (line.Blank? || line.Item?) && Step(st, line).Ok?
    ensures Traces(Step(st, line).value, lines + [line], openers)
  {
    hide HoldsList, ValidFrames, AddItem;
    var all, next := lines + [line], Step(st, line).value;
    assert forall t :: 0 <= t < |lines| ==> all[t] == lines[t];
    if line.Item? {
      StepValid(st, line);
      ItemTouchesLast(st, line);
    }
    forall j | 0 <= j < |openers|
      ensures Stands(next.frames[j + 1], all, openers[j])
    {
      var q := openers[j];
      assert Stands(st.frames[j + 1], lines, q);
      HoldsListNext(lines, line, q);
      if line.Item? && j < |openers| - 1 {
        var last := openers[|openers| - 1];
        assert Stands(st.frames[|openers|], lines, last) && lines[last].Pair?;
      }
    }
  }

  lemma {:induction false} ItemTouchesLast(st: State, line: Line)
    requires Valid(st) && line.Item? && Step(st, line).Ok?
    ensures var next := Step(st, line).value;
            && st.pending && next.pending && |next.frames| == |st.frames|
            && (forall j :: 0 <= j < |st.frames| ==>
                  && next.frames[j].indent == st.frames[j].indent && next.frames[j].key == st.frames[j].key
                  && next.frames[j].detached == (st.frames[j].detached || j == |st.frames| - 1))
  {
    ItemValid(st, line.item);
  }

  /** As many keys stay open at an indent as frames, the root's aside. */
  lemma {:induction false} SameNumber(st: State, lines: seq<Line>, openers: seq<nat>, indent: nat)
    requires Valid(st) && Traces(st, lines, openers)
    ensures |PopTo(st.frames, indent)| == |Above(openers, lines, indent)| + 1
    ensures forall j :: |Above(openers, lines, indent)| <= j < |openers| ==> indent <= lines[openers[j]].indent
  {
    hide HoldsList, ValidFrames, PopTo;
    PopExactly(st.frames, indent);
    var open, kept := PopTo(st.frames, indent), Above(openers, lines, indent);
    assert forall j :: 0 <= j < |openers| ==> Stands(st.frames[j + 1], lines, openers[j]);
    assert |kept| + 1 >= |open|;
    if kept != [] {
      var last := |kept| - 1;
      assert kept[last] == openers[last] && Stands(st.frames[last + 1], lines, openers[last]);
      assert last + 1 < |open|;
    }
  }

  /** What a mapping line does to the frames: those below its indent stay, and a key without a value opens one. */
  lemma {:induction false} PairFrames(st: State, line: Line)
    requires Valid(st) && line.Pair?
    ensures Step(st, line).Ok?
    ensures var open, next := PopTo(st.frames, line.indent), Step(st, line).value;
            && |next.frames| == |open| + (if line.value.None? then 1 else 0) && |open| <= |st.frames|
            && (forall j :: 0 <= j < |open| ==> next.frames[j].indent == st.frames[j].indent && next.frames[j].key == st.frames[j].key
                                                && next.frames[j].detached == st.frames[j].detached)
            && (line.value.None? ==> next.frames[|open|] == Frame(line.indent, line.key, [], false))
            && next.pending == line.value.None?
  {
    hide PopTo;
    PopPrefix(st.frames, line.indent);
  }

  /** The open keys after a mapping line. */
  function Reopened(lines: seq<Line>, openers: seq<nat>, line: Line): seq<nat>
    requires line.Pair?
  {
    Above(openers, lines, line.indent) + if line.value.None? then [|lines|] else []
  }

  lemma {:induction false} PairStands(st: State, lines: seq<Line>, openers: seq<nat>, line: Line, j: nat)
    requires Valid(st) && Traces(st, lines, openers) && line.Pair? && j < |Reopened(lines, openers, line)|
    ensures Step(st, line).Ok? && |Step(st, line).value.frames| == |Reopened(lines, openers, line)| + 1
    ensures Stands(Step(st, line).value.frames[j + 1], lines + [line], Reopened(lines, openers, line)[j])
  {
    hide HoldsList, Above, Step, PopTo, ValidFrames;
    PairFrames(st, line);
    SameNumber(st, lines, openers, line.indent);
    var kept := Above(openers, lines, line.indent);
    if j < |kept| {
      assert kept[j] == openers[j] && Stands(st.frames[j + 1], lines, openers[j]);
      HoldsListNext(lines, line, openers[j]);
    } else {
      NewKeyEmpty(lines, line);
    }
  }

  lemma {:induction false} ReopenedOrder(st: State, lines: seq<Line>, openers: seq<nat>, line: Line)
    requires Traces(st, lines, openers) && line.Pair?
    ensures var now := Reopened(lines, openers, line);
            && (forall i, j :: 0 <= i < j < |now| ==> now[i] < now[j])
            && (line.value.None? <==> now != [] && forall t :: now[|now| - 1] < t < |lines + [line]| ==> !(lines + [line])[t].Pair?)
  {
    hide HoldsList, Above;
    var all, now, kept := lines + [line], Reopened(lines, openers, line), Above(openers, lines, line.indent);
    assert forall j :: 0 <= j < |kept| ==> kept[j] == openers[j] && kept[j] < |lines|;
    if line.value.Some? {
      assert all[|lines|].Pair?;
    }
  }

  /** A mapping line. */
  lemma {:induction false} TracePair(st: State, lines: seq<Line>, openers: seq<nat>, line: Line)
    requires Valid(st) && Traces(st, lines, openers) && line.Pair?
    ensures Step(st, line).Ok?
    ensures Traces(Step(st, line).value, lines + [line], Reopened(lines, openers, line))
  {
    hide Stands, Step, PopTo, ValidFrames, Reopened;
    PairFrames(st, line);
    PairCount(st, lines, openers, line);
    ReopenedOrder(st, lines, openers, line);
    var now := Reopened(lines, openers, line);
    forall j | 0 <= j < |now|
      ensures Stands(Step(st, line).value.frames[j + 1], lines + [line], now[j])
    {
      PairStands(st, lines, openers, line, j);
    }
  }

  lemma {:induction false} PairCount(st: State, lines: seq<Line>, openers: seq<nat>, line: Line)
    requires Valid(st) && Traces(st, lines, openers) && line.Pair?
    ensures Step(st, line).Ok? && |Step(st, line).value.frames| == |Reopened(lines, openers, line)| + 1
  {
    hide Stands, Step, PopTo, ValidFrames, Above;
    PairFrames(st, line);
    SameNumber(st, lines, openers, line.indent);
  }

  /** Every accepted text is traced by its open keys. */
  lemma {:induction false} TraceRun(lines: seq<Line>)
    requires Run(START, lines).Ok?
    ensures Traces(Run(START, lines).value, lines, Openers(lines))
    decreases |lines|
  {
    hide Traces, Above;
    if lines == [] {
      TraceStart();
    } else {
      var n := |lines| - 1;
      var line := lines[n];
      RunSplit(lines, n);
      TraceRun(lines[..n]);
      var st := Run(START, lines[..n]).value;
      LastStep(st, line);
      if line.Pair? {
        TracePair(st, lines[..n], Openers(lines[..n]), line);
      } else {
        TraceOther(st, lines[..n], Openers(lines[..n]), line);
      }
    }
  }

  lemma {:induction false} TraceStart()
    ensures Traces(START, [], [])
  {
  }

  lemma {:induction false} RunSplit(lines: seq<Line>, p: nat)
    requires p < |lines|
    ensures lines == lines[..p] + ([lines[p]] + lines[p + 1..])
    ensures Run(START, lines) == match Run(START, lines[..p]) case Ok(st) => Run(st, [lines[p]] + lines[p + 1..]) case Err(e) => Err(e)
    ensures p + 1 == |lines| ==> lines == lines[..p] + [lines[p]] && [lines[p]] + lines[p + 1..] == [lines[p]]
  {
    assert lines == lines[..p] + ([lines[p]] + lines[p + 1..]);
    RunConcat(START, lines[..p], [lines[p]] + lines[p + 1..]);
  }

  lemma {:induction false} LastStep(st: State, line: Line)
    requires Valid(st)
    ensures Run(st, [line]) == Step(st, line)
    ensures Step(st, line).Ok? ==> line.Blank? || line.Item? || line.Pair?
  {
    StepValid(st, line);
    assert [line][1..] == [];
  }

  // ----- the open keys, said of the lines -----

  lemma {:induction false} OpenNext(lines: seq<Line>, line: Line, q: nat)
    requires q < |lines|
    ensures Open(lines, q) ==> lines[q].Pair?
    ensures Open(lines + [line], q) <==> Open(lines, q) && (line.Pair? ==> lines[q].indent < line.indent)
  {
    var all := lines + [line];
    assert forall r :: 0 <= r < |lines| ==> all[r] == lines[r];
    assert all[|lines|] == line;
  }

  /** In an accepted text the open keys are those under which every later mapping line is indented. */
  lemma {:induction false} OpenersOpen(lines: seq<Line>)
    requires Run(START, lines).Ok?
    ensures forall q: nat :: q in Openers(lines) <==> Open(lines, q)
    decreases |lines|
  {
    hide Open, Traces, Above;
    if lines == [] {
      NothingOpen();
    } else {
      var n := |lines| - 1;
      var before, line := lines[..n], lines[n];
      assert lines == before + [line];
      RunSplit(lines, n);
      OpenersOpen(before);
      TraceRun(before);
      var st := Run(START, before).value;
      LastStep(st, line);
      forall q: nat
        ensures q in Openers(lines) <==> Open(lines, q)
      {
        if q < n {
          OpenNext(before, line, q);
          if line.Pair? {
            AboveFilters(st, before, Openers(before), line.indent, q);
          } else {
            assert Openers(lines) == Openers(before);
          }
        } else {
          OpenLast(lines, q);
          OpenersBound(st, before, Openers(before), q);
          if line.Pair? {
            AboveWithin(Openers(before), before, line.indent, q);
          }
        }
      }
    }
  }

  lemma {:induction false} NothingOpen()
    ensures forall q: nat :: !Open([], q) && q !in Openers([])
  {
  }

  lemma {:induction false} OpenLast(lines: seq<Line>, q: nat)
    requires |lines| > 0 && q >= |lines| - 1
    ensures Open(lines, q) <==> q == |lines| - 1 && lines[q].Pair? && lines[q].value.None?
  {
  }

  lemma {:induction false} OpenersBound(st: State, lines: seq<Line>, openers: seq<nat>, q: nat)
    requires Traces(st, lines, openers) && q >= |lines|
    ensures q !in openers
  {
    hide HoldsList;
    assert forall j :: 0 <= j < |openers| ==> Stands(st.frames[j + 1], lines, openers[j]);
  }

  lemma {:induction false} AboveWithin(openers: seq<nat>, lines: seq<Line>, indent: nat, q: nat)
    requires q !in openers
    ensures q !in Above(openers, lines, indent)
  {
    var kept := Above(openers, lines, indent);
    assert forall j :: 0 <= j < |kept| ==> kept[j] == openers[j];
  }

  lemma {:induction false} AboveFilters(st: State, lines: seq<Line>, openers: seq<nat>, indent: nat, q: nat)
    requires Valid(st) && Traces(st, lines, openers) && q < |lines|
    ensures q in Above(openers, lines, indent) <==> q in openers && lines[q].Pair? && lines[q].indent < indent
  {
    hide HoldsList;
    SameNumber(st, lines, openers, indent);
    var kept := Above(openers, lines, indent);
    assert forall j :: 0 <= j < |kept| ==> kept[j] == openers[j];
    assert forall j :: 0 <= j < |openers| ==> Stands(st.frames[j + 1], lines, openers[j]);
    if q in kept {
      var j :| 0 <= j < |kept| && kept[j] == q;
      assert openers[j] == q;
    } else if q in openers {
      var j :| 0 <= j < |openers| && openers[j] == q;
    }
  }

  // ----- which lines are refused -----

  /** The last mapping line before p is the key line q, which has no value. */
  predicate Heads(lines: seq<Line>, p: nat, q: nat) {
    q < p <= |lines| && IsKey(lines, q) && forall t :: q < t < p ==> !lines[t].Pair?
  }

  /** Items are taken exactly below such a key line. */
  lemma {:induction false} PendingHeads(lines: seq<Line>)
    requires Run(START, lines).Ok?
    ensures var st := Run(START, lines).value;
            && (st.pending <==> exists q: nat :: Heads(lines, |lines|, q))
            && (forall q: nat :: Heads(lines, |lines|, q) ==> st.frames[|st.frames| - 1].indent == lines[q].indent)
  {
    hide HoldsList, Openers;
    TraceRun(lines);
    OpenersOpen(lines);
    var st, openers := Run(START, lines).value, Openers(lines);
    if openers != [] {
      var last := openers[|openers| - 1];
      assert Stands(st.frames[|openers|], lines, last);
      if st.pending {
        assert Heads(lines, |lines|, last);
      }
    }
    forall q: nat | Heads(lines, |lines|, q)
      ensures openers != [] && openers[|openers| - 1] == q
    {
      assert Open(lines, q);
      var j :| 0 <= j < |openers| && openers[j] == q;
      var last := openers[|openers| - 1];
      assert Stands(st.frames[|openers|], lines, last);
    }
  }

  /**
   When a text accepted so far is refused at its next line, and with which error, said of its lines alone: a line without
   a colon always; a list item when the last mapping line before it is not a key without a value, and when it is one but
   is not indented less. Blank lines and mapping lines never.
  */
  lemma {:induction false} LineRefusedExactly(lines: seq<Line>, p: nat)
    requires p < |lines| && Run(START, lines[..p]).Ok?
    ensures var r, line := Run(START, lines[..p + 1]), lines[p];
            && (r == Err(InvalidLine) <==> line.NoColon?)
            && (r == Err(ListItemWithoutParentKey) <==> line.Item? && !exists q: nat :: Heads(lines, p, q))
            && (r == Err(InvalidListIndentation)
                <==> line.Item? && exists q: nat :: Heads(lines, p, q) && line.indent <= lines[q].indent)
            && (r.Ok? <==> line.Blank? || line.Pair?
                           || (line.Item? && exists q: nat :: Heads(lines, p, q) && lines[q].indent < line.indent))
  {
    hide HoldsList, Openers, Traces;
    var before, line := lines[..p], lines[p];
    assert lines[..p + 1] == before + [line];
    RunConcat(START, before, [line]);
    var st := Run(START, before).value;
    LastStep(st, line);
    StepValid(st, line);
    PendingHeads(before);
    forall q: nat
      ensures Heads(lines, p, q) <==> Heads(before, p, q)
    {
      assert q < p ==> before[q] == lines[q];
      assert forall t :: 0 <= t < p ==> before[t] == lines[t];
    }
  }

  // ----- which lines are lost -----

  /** An open key above line p whose mapping has been replaced by a list. */
  predicate LostUnder(lines: seq<Line>, p: nat, q: nat) {
    && q < p < |lines| && lines[p].Pair? && IsKey(lines, q)
    && (forall r :: q < r <= p && lines[r].Pair? ==> lines[q].indent < lines[r].indent)
    && HoldsList(lines[..p], q)
  }

  lemma {:induction false} LostUnderOpen(lines: seq<Line>, p: nat, q: nat)
    requires q < p < |lines| && lines[p].Pair?
    ensures Open(lines[..p], q) ==> lines[..p][q].Pair?
    ensures LostUnder(lines, p, q) <==> Open(lines[..p], q) && lines[q].indent < lines[p].indent && HoldsList(lines[..p], q)
  {
    hide HoldsList;
    var before := lines[..p];
    assert forall r :: 0 <= r < p ==> before[r] == lines[r];
  }

  lemma {:induction false} AttachedKeys(st: State, lines: seq<Line>, openers: seq<nat>, indent: nat)
    requires Valid(st) && Traces(st, lines, openers)
    ensures AllAttached(PopTo(st.frames, indent))
            <==> forall j :: 0 <= j < |Above(openers, lines, indent)| ==> !HoldsList(lines, Above(openers, lines, indent)[j])
  {
    hide HoldsList, Above;
    PopExactly(st.frames, indent);
    SameNumber(st, lines, openers, indent);
    var open, kept := PopTo(st.frames, indent), Above(openers, lines, indent);
    assert forall j :: 0 <= j < |kept| ==> kept[j] == openers[j];
    assert forall j :: 0 <= j < |kept| ==> Stands(st.frames[j + 1], lines, kept[j]);
    assert forall j :: 0 <= j < |kept| ==> (open[j + 1].detached <==> HoldsList(lines, kept[j]));
    assert !open[0].detached;
    if forall j :: 0 <= j < |kept| ==> !HoldsList(lines, kept[j]) {
      forall i | 0 <= i < |open|
        ensures !open[i].detached
      {
        if i > 0 {
          assert !HoldsList(lines, kept[i - 1]);
        }
      }
    }
  }

  /**
   In any text accepted up to a mapping line, said of the lines alone: the line is lost if and only if some earlier key
   line, under which every mapping line since and this one are indented, was followed by a list item before any other
   mapping line.
  */
  lemma {:induction false} LineLostExactly(lines: seq<Line>, p: nat)
    requires p < |lines| && lines[p].Pair? && Run(START, lines[..p]).Ok?
    ensures !AllAttached(PopTo(Run(START, lines[..p]).value.frames, lines[p].indent)) <==> exists q: nat :: LostUnder(lines, p, q)
  {
    hide HoldsList, Above, LostUnder, Open, Traces, AllAttached, PopTo;
    var before := lines[..p];
    var st, openers, indent := Run(START, before).value, Openers(before), lines[p].indent;
    TraceRun(before);
    OpenersOpen(before);
    AttachedKeys(st, before, openers, indent);
    var kept := Above(openers, before, indent);
    forall q: nat
      ensures LostUnder(lines, p, q) <==> q in kept && HoldsList(before, q)
    {
      if q < p {
        LostUnderOpen(lines, p, q);
        AboveFilters(st, before, openers, indent, q);
      } else {
        OpenersBound(st, before, openers, q);
        AboveWithin(openers, before, indent, q);
        NotUnderLater(lines, p, q);
      }
    }
    if exists q: nat :: LostUnder(lines, p, q) {
      var q: nat :| LostUnder(lines, p, q);
      var j :| 0 <= j < |kept| && kept[j] == q;
      assert HoldsList(before, kept[j]);
    }
    if j :| 0 <= j < |kept| && HoldsList(before, kept[j]) {
      assert LostUnder(lines, p, kept[j]);
    }
  }

  lemma {:induction false} NotUnderLater(lines: seq<Line>, p: nat, q: nat)
    requires p <= q
    ensures !LostUnder(lines, p, q)
  {
  }

  /**
   What a whole text loses: removing a lost line changes neither the result nor the error, unless a list item comes
   before the next mapping line; then a value before it makes the item an error.
  */
  lemma {:induction false} TextWithoutLostLine(lines: seq<Line>, p: nat)
    requires p < |lines| && lines[p].Pair? && Run(START, lines[..p]).Ok? && exists q: nat :: LostUnder(lines, p, q)
    ensures var next := SkipBlanks(lines[p + 1..]);
            && (next == [] || !next[0].Item? ==> Outcome(START, lines) == Outcome(START, lines[..p] + lines[p + 1..]))
            && (next != [] && next[0].Item? && lines[p].value.Some? ==> Outcome(START, lines) == Err(ListItemWithoutParentKey))
  {
    hide LostUnder, AllAttached, PopTo, SkipBlanks;
    LineLostExactly(lines, p);
    RunSplit(lines, p);
    RunConcat(START, lines[..p], lines[p + 1..]);
    LostLineEffect(Run(START, lines[..p]).value, lines[p], lines[p + 1..]);
  }

  /** And a line that is not lost is found in the result as it stands after it, at the path of its open frames. */
  lemma {:induction false} TextKeepsLine(lines: seq<Line>, p: nat)
    requires p < |lines| && lines[p].Pair? && Run(START, lines[..p]).Ok?
    ensures var st := Run(START, lines[..p]).value;
            var path := Keys(PopTo(st.frames, lines[p].indent)) + [lines[p].key];
            Run(START, lines[..p] + [lines[p]]).Ok?
            && (Lookup(Finish(Run(START, lines[..p] + [lines[p]]).value), path) == Some(WrittenValue(lines[p].value))
                <==> !exists q: nat :: LostUnder(lines, p, q))
  {
    hide LostUnder, AllAttached, PopTo;
    LineLostExactly(lines, p);
    var st := Run(START, lines[..p]).value;
    RunConcat(START, lines[..p], [lines[p]]);
    LastStep(st, lines[p]);
    MappingLineKept(st, lines[p].indent, lines[p].key, lines[p].value);
  }
}
