/** Printing a configuration tree with two-blank indentation, and the proof that parsing gives the tree back. */
module YamlRoundTrip {
  import opened Results
  import opened Text
  import opened PyDict
  import opened YamlSyntax
  import opened YamlTree

  /** The trees that have a printing: list values are non-empty, keys and scalars survive comment stripping. */
  predicate EntriesOk(es: seq<Entry<Tree>>)
    decreases es, 0
  {
    && DistinctKeys(es)
    && (forall i :: 0 <= i < |es| ==> KeyOk(es[i].key))
    && (forall i :: 0 <= i < |es| ==> TreeOk(es[i].value))
  }

  predicate TreeOk(t: Tree)
    decreases t, 1
  {
    match t
    case Leaf(v) => ScalarOk(v)
    case Items(xs) => xs != [] && (forall j :: 0 <= j < |xs| ==> ScalarOk(xs[j]))
    case Node(sub) => EntriesOk(sub)
  }

  function PrintItems(xs: seq<Scalar>, indent: nat): seq<string> {
    if xs == [] then [] else [ItemLine(indent, xs[0])] + PrintItems(xs[1..], indent)
  }

  function PrintBlock(value: Tree, key: string, indent: nat): seq<string>
    decreases value, 1
  {
    match value
    case Leaf(v) => [PairLine(indent, key, v)]
    case Items(xs) => [KeyLine(indent, key)] + PrintItems(xs, indent + 2)
    case Node(sub) => [KeyLine(indent, key)] + PrintEntries(sub, indent + 2)
  }

  function PrintEntries(es: seq<Entry<Tree>>, indent: nat): seq<string>
    decreases es, 0
  {
    if es == [] then [] else PrintBlock(es[0].value, es[0].key, indent) + PrintEntries(es[1..], indent)
  }

  function Print(es: seq<Entry<Tree>>): string {
    Unlines(PrintEntries(es, 0))
  }

  // ----- the lines the printing stands for -----

  function ItemLines(xs: seq<Scalar>, indent: nat): seq<Line> {
    if xs == [] then [] else [Item(indent, xs[0])] + ItemLines(xs[1..], indent)
  }

  function BlockLines(value: Tree, key: string, indent: nat): seq<Line>
    decreases value, 1
  {
    match value
    case Leaf(v) => [Pair(indent, key, Some(v))]
    case Items(xs) => [Pair(indent, key, None)] + ItemLines(xs, indent + 2)
    case Node(sub) => [Pair(indent, key, None)] + EntryLines(sub, indent + 2)
  }

  function EntryLines(es: seq<Entry<Tree>>, indent: nat): seq<Line>
    decreases es, 0
  {
    if es == [] then [] else BlockLines(es[0].value, es[0].key, indent) + EntryLines(es[1..], indent)
  }

  predicate Means(raw: string, line: Line) {
    ReadLine(raw) == line && OneLine(raw)
  }

  ghost predicate Reads(raw: seq<string>, lines: seq<Line>) {
    |raw| == |lines| && forall i :: 0 <= i < |raw| ==> Means(raw[i], lines[i])
  }

  lemma {:induction false} ReadsConcat(a: seq<string>, la: seq<Line>, b: seq<string>, lb: seq<Line>)
    requires Reads(a, la) && Reads(b, lb)
    ensures Reads(a + b, la + lb)
  {
    hide Means, ReadLine;
  }

  lemma {:induction false} ReadsCons(raw: string, line: Line, b: seq<string>, lb: seq<Line>)
    requires Means(raw, line) && Reads(b, lb)
    ensures Reads([raw] + b, [line] + lb)
  {
    hide Means, ReadLine;
  }

  lemma {:induction false} PrintedLinesRead(indent: nat, key: string, v: Scalar)
    requires KeyOk(key) && ScalarOk(v)
    ensures Means(KeyLine(indent, key), Pair(indent, key, None))
    ensures Means(PairLine(indent, key, v), Pair(indent, key, Some(v)))
    ensures Means(ItemLine(indent, v), Item(indent, v))
  {
    PrintedLinesAreLines(indent, key, v);
    ReadKeyLine(indent, key);
    ReadPairLine(indent, key, v);
    ReadItemLine(indent, v);
  }

  lemma {:induction false} ReadPrintedItems(xs: seq<Scalar>, indent: nat)
    requires forall j :: 0 <= j < |xs| ==> ScalarOk(xs[j])
    ensures Reads(PrintItems(xs, indent), ItemLines(xs, indent))
  {
    if xs != [] {
      PrintedLinesRead(indent, "", xs[0]);
      ReadPrintedItems(xs[1..], indent);
      ReadsCons(ItemLine(indent, xs[0]), Item(indent, xs[0]), PrintItems(xs[1..], indent), ItemLines(xs[1..], indent));
    }
  }

  lemma {:induction false} ReadPrintedBlock(value: Tree, key: string, indent: nat)
    requires TreeOk(value) && KeyOk(key)
    ensures Reads(PrintBlock(value, key, indent), BlockLines(value, key, indent))
    decreases value, 1
  {
    match value
    case Leaf(v) =>
      PrintedLinesRead(indent, key, v);
      ReadsCons(PairLine(indent, key, v), Pair(indent, key, Some(v)), [], []);
    case Items(xs) =>
      PrintedLinesRead(indent, key, SNull);
      ReadPrintedItems(xs, indent + 2);
      ReadsCons(KeyLine(indent, key), Pair(indent, key, None), PrintItems(xs, indent + 2), ItemLines(xs, indent + 2));
    case Node(sub) =>
      PrintedLinesRead(indent, key, SNull);
      ReadPrintedEntries(sub, indent + 2);
      ReadsCons(KeyLine(indent, key), Pair(indent, key, None), PrintEntries(sub, indent + 2), EntryLines(sub, indent + 2));
  }

  /** Every printed line reads back as the line it stands for. */
  lemma {:induction false} ReadPrintedEntries(es: seq<Entry<Tree>>, indent: nat)
    requires EntriesOk(es)
    ensures Reads(PrintEntries(es, indent), EntryLines(es, indent))
    decreases es, 0
  {
    if es != [] {
      ReadPrintedBlock(es[0].value, es[0].key, indent);
      ReadPrintedEntries(es[1..], indent);
      ReadsConcat(PrintBlock(es[0].value, es[0].key, indent), BlockLines(es[0].value, es[0].key, indent),
                  PrintEntries(es[1..], indent), EntryLines(es[1..], indent));
    }
  }

  // ----- running those lines -----

  ghost function Collected(base: seq<Frame>, parent: Frame, child: Frame, items: seq<Scalar>): State {
    State(base + [parent.(entries := Put(parent.entries, child.key, Items(items))), child.(detached := true)], true)
  }

  lemma {:induction false} AddOneItem(base: seq<Frame>, parent: Frame, child: Frame, prefix: seq<Scalar>, item: Scalar, indent: nat)
    requires Valid(State(base + [parent, child], true)) && child.indent < indent
    requires Get(parent.entries, child.key) == Some(if prefix == [] then Node([]) else Items(prefix))
    ensures Step(State(base + [parent, child], true), Item(indent, item)) == Ok(Collected(base, parent, child, prefix + [item]))
    ensures Valid(Collected(base, parent, child, prefix + [item]))
  {
    var st := State(base + [parent, child], true);
    StepValid(st, Item(indent, item));
    assert st.frames[..|st.frames| - 2] == base;
    assert Collected(base, parent, child, prefix + [item]).frames == AttachItems(st.frames, prefix + [item]);
    assert prefix == [] ==> prefix + [item] == [item];
  }

  /** List items under a just opened key collect, in order, in the place of its mapping. */
  lemma {:induction false} RunItems(base: seq<Frame>, parent: Frame, child: Frame, prefix: seq<Scalar>, xs: seq<Scalar>, indent: nat)
    requires Valid(State(base + [parent, child], true)) && child.indent < indent && xs != []
    requires Get(parent.entries, child.key) == Some(if prefix == [] then Node([]) else Items(prefix))
    ensures Run(State(base + [parent, child], true), ItemLines(xs, indent)) == Ok(Collected(base, parent, child, prefix + xs))
    decreases |xs|
  {
    AddOneItem(base, parent, child, prefix, xs[0], indent);
    RunFirst(State(base + [parent, child], true), Item(indent, xs[0]), ItemLines(xs[1..], indent));
    var next := Collected(base, parent, child, prefix + [xs[0]]);
    assert prefix + [xs[0]] + xs[1..] == prefix + xs;
    if |xs| > 1 {
      GetPut(parent.entries, child.key, Items(prefix + [xs[0]]));
      PutPut(parent.entries, child.key, Items(prefix + [xs[0]]), Items(prefix + xs));
      var parent', child' := next.frames[|base|], next.frames[|base| + 1];
      assert next.frames == base + [parent', child'];
      RunItems(base, parent', child', prefix + [xs[0]], xs[1..], indent);
      assert Collected(base, parent', child', prefix + xs) == Collected(base, parent, child, prefix + xs);
    } else {
      assert prefix + [xs[0]] == prefix + xs;
    }
  }

  /** The state before a block: closing what the block's indent ends leaves base and the receiving frame. */
  ghost predicate At(st: State, indent: nat, base: seq<Frame>, top: Frame) {
    Valid(st) && PopTo(st.frames, indent) == base + [top] && top.indent < indent
  }

  lemma {:induction false} PopToStops(base: seq<Frame>, top: Frame, indent: int)
    requires top.indent < indent
    ensures PopTo(base + [top], indent) == base + [top]
  {
  }

  lemma {:induction false} PopToClosesChild(base: seq<Frame>, top: Frame, child: Frame, indent: int)
    requires top.indent < indent <= child.indent
    ensures PopTo(base + [top, child], indent) == base + [Close(top, child)]
  {
    var frames := base + [top, child];
    assert CloseLast(frames) == base + [Close(top, child)];
    PopToStops(base, Close(top, child), indent);
  }

  /** Opening a key: its frame is pushed on the receiving frame, which holds an empty mapping for it. */
  lemma {:induction false} OpenKey(st: State, indent: nat, base: seq<Frame>, top: Frame, key: string) returns (next: State)
    requires At(st, indent, base, top) && Fresh(top.entries, key)
    ensures Step(st, Pair(indent, key, None)) == Ok(next) && Valid(next)
    ensures next == State(base + [top.(entries := top.entries + [Entry(key, Node([]))]), Frame(indent, key, [], false)], true)
  {
    StepValid(st, Pair(indent, key, None));
    PutFresh(top.entries, key, Node([]));
    next := Step(st, Pair(indent, key, None)).value;
    var holder := top.(entries := top.entries + [Entry(key, Node([]))]);
    assert base + [holder] + [Frame(indent, key, [], false)] == base + [holder, Frame(indent, key, [], false)];
  }

  ghost function Filled(top: Frame, e: Entry<Tree>): Frame {
    top.(entries := top.entries + [e])
  }

  lemma {:induction false} RunLeaf(st: State, indent: nat, base: seq<Frame>, top: Frame, key: string, v: Scalar) returns (next: State)
    requires At(st, indent, base, top) && Fresh(top.entries, key)
    ensures Run(st, [Pair(indent, key, Some(v))]) == Ok(next)
    ensures At(next, indent, base, Filled(top, Entry(key, Leaf(v))))
  {
    var line := Pair(indent, key, Some(v));
    StepValid(st, line);
    RunFirst(st, line, []);
    PutFresh(top.entries, key, Leaf(v));
    next := Step(st, line).value;
    assert next.frames == base + [Filled(top, Entry(key, Leaf(v)))];
    PopToStops(base, Filled(top, Entry(key, Leaf(v))), indent);
  }

  lemma {:induction false} RunList(st: State, indent: nat, base: seq<Frame>, top: Frame, key: string, xs: seq<Scalar>) returns (next: State)
    requires At(st, indent, base, top) && Fresh(top.entries, key) && xs != []
    ensures Run(st, BlockLines(Items(xs), key, indent)) == Ok(next)
    ensures At(next, indent, base, Filled(top, Entry(key, Items(xs))))
  {
    hide Valid, PopTo, Put, Get, Run, Step;
    var holder, child := Filled(top, Entry(key, Node([]))), Frame(indent, key, [], false);
    var inside := OpenKey(st, indent, base, top, key);
    assert inside.frames == base + [holder, child];
    RunFirst(st, Pair(indent, key, None), ItemLines(xs, indent + 2));
    ListTakesPlace(top, key, xs);
    assert [] + xs == xs;
    RunItems(base, holder, child, [], xs, indent + 2);
    next := Run(inside, ItemLines(xs, indent + 2)).value;
    assert next == State(base + [Filled(top, Entry(key, Items(xs))), child.(detached := true)], true);
    PopToClosesChild(base, Filled(top, Entry(key, Items(xs))), child.(detached := true), indent);
  }

  /** A list replaces the empty mapping that a new key holds at the end. */
  lemma {:induction false} ListTakesPlace(top: Frame, key: string, xs: seq<Scalar>)
    requires Fresh(top.entries, key)
    ensures var holder := Filled(top, Entry(key, Node([])));
            && Get(holder.entries, key) == Some(Node([]))
            && holder.(entries := Put(holder.entries, key, Items(xs))) == Filled(top, Entry(key, Items(xs)))
  {
    PutFresh(top.entries, key, Node([]));
    GetPut(top.entries, key, Node([]));
    PutFresh(top.entries, key, Items(xs));
    PutPut(top.entries, key, Node([]), Items(xs));
  }

  /** Closing the frame of a nested block stores what it collected. */
  lemma {:induction false} CloseBlock(next: State, indent: nat, base: seq<Frame>, top: Frame, key: string, sub: seq<Entry<Tree>>)
    requires top.indent < indent && Fresh(top.entries, key)
    requires At(next, indent + 2, base + [Filled(top, Entry(key, Node([])))], Frame(indent, key, sub, false))
    ensures At(next, indent, base, Filled(top, Entry(key, Node(sub))))
  {
    var holder, child := Filled(top, Entry(key, Node([]))), Frame(indent, key, sub, false);
    PopToFurther(next.frames, indent + 2, indent);
    assert base + [holder] + [child] == base + [holder, child];
    PopToClosesChild(base, holder, child, indent);
    PutFresh(top.entries, key, Node([]));
    PutFresh(top.entries, key, Node(sub));
    PutPut(top.entries, key, Node([]), Node(sub));
  }

  /** The lines of one entry add exactly that entry to the receiving frame. */
  lemma {:induction false} RunBlock(st: State, indent: nat, base: seq<Frame>, top: Frame, key: string, value: Tree) returns (next: State)
    requires At(st, indent, base, top) && TreeOk(value) && Fresh(top.entries, key)
    ensures Run(st, BlockLines(value, key, indent)) == Ok(next)
    ensures At(next, indent, base, Filled(top, Entry(key, value)))
    decreases value, 1
  {
    match value
    case Leaf(v) =>
      next := RunLeaf(st, indent, base, top, key, v);
    case Items(xs) =>
      next := RunList(st, indent, base, top, key, xs);
    case Node(sub) =>
      next := RunNested(st, indent, base, top, key, sub);
  }

  /** After a nested block's key line, its frame is ready to receive entries two blanks further in. */
  lemma {:induction false} OpenBlock(st: State, indent: nat, base: seq<Frame>, top: Frame, key: string) returns (inside: State)
    requires At(st, indent, base, top) && Fresh(top.entries, key)
    ensures Step(st, Pair(indent, key, None)) == Ok(inside)
    ensures At(inside, indent + 2, base + [Filled(top, Entry(key, Node([])))], Frame(indent, key, [], false))
  {
    var holder, child := Filled(top, Entry(key, Node([]))), Frame(indent, key, [], false);
    inside := OpenKey(st, indent, base, top, key);
    assert base + [holder, child] == (base + [holder]) + [child];
    PopToStops(base + [holder], child, indent + 2);
  }

  lemma {:induction false} RunNested(st: State, indent: nat, base: seq<Frame>, top: Frame, key: string, sub: seq<Entry<Tree>>) returns (next: State)
    requires At(st, indent, base, top) && EntriesOk(sub) && Fresh(top.entries, key)
    ensures Run(st, [Pair(indent, key, None)] + EntryLines(sub, indent + 2)) == Ok(next)
    ensures At(next, indent, base, Filled(top, Entry(key, Node(sub))))
    decreases sub, 1
  {
    var inside := OpenBlock(st, indent, base, top, key);
    RunFirst(st, Pair(indent, key, None), EntryLines(sub, indent + 2));
    var holder, child := Filled(top, Entry(key, Node([]))), Frame(indent, key, [], false);
    next := RunEntries(inside, indent + 2, base + [holder], child, sub);
    assert child.(entries := child.entries + sub) == Frame(indent, key, sub, false);
    CloseBlock(next, indent, base, top, key, sub);
  }

  lemma {:induction false} FreshFilled(top: Frame, es: seq<Entry<Tree>>)
    requires es != [] && DistinctKeys(es)
    requires forall i :: 0 <= i < |es| ==> Fresh(top.entries, es[i].key)
    ensures forall i :: 0 <= i < |es[1..]| ==> Fresh(Filled(top, es[0]).entries, es[1..][i].key)
  {
    forall i | 0 <= i < |es[1..]|
      ensures Fresh(Filled(top, es[0]).entries, es[1..][i].key)
    {
      assert es[1..][i] == es[i + 1];
      assert Fresh(top.entries, es[i + 1].key);
    }
  }

  /** The lines of a block of entries add exactly those entries, in order, to the receiving frame. */
  lemma {:induction false} RunEntries(st: State, indent: nat, base: seq<Frame>, top: Frame, es: seq<Entry<Tree>>) returns (next: State)
    requires At(st, indent, base, top) && EntriesOk(es)
    requires forall i :: 0 <= i < |es| ==> Fresh(top.entries, es[i].key)
    ensures Run(st, EntryLines(es, indent)) == Ok(next)
    ensures At(next, indent, base, top.(entries := top.entries + es))
    decreases es, 0
  {
    hide PopTo, Step, Valid, BlockLines, TreeOk;
    if es == [] {
      assert top.entries + es == top.entries;
      next := st;
    } else {
      var rest := Filled(top, es[0]);
      assert Entry(es[0].key, es[0].value) == es[0];
      var mid := RunBlock(st, indent, base, top, es[0].key, es[0].value);
      FreshFilled(top, es);
      next := RunEntries(mid, indent, base, rest, es[1..]);
      RunConcat(st, BlockLines(es[0].value, es[0].key, indent), EntryLines(es[1..], indent));
      assert top.entries + [es[0]] + es[1..] == top.entries + es;
    }
  }

  /** Parse after print: for every printable configuration tree, the parser returns exactly that tree. */
  lemma {:induction false} ParsePrint(es: seq<Entry<Tree>>)
    requires EntriesOk(es)
    ensures Parse(Print(es)) == Ok(es)
  {
    ReadPrintedEntries(es, 0);
    assert ReadLines(PrintEntries(es, 0)) == EntryLines(es, 0);
    SplitLinesOfUnlines(PrintEntries(es, 0));
    var root := START.frames[0];
    PopToStops([], root, 0);
    assert [] + [root] == START.frames;
    var last := RunEntries(START, 0, [], root, es);
    assert [] + es == es;
    assert ([] + [root.(entries := es)])[0].entries == es;
  }
}
