/**
 _parse_simple_yaml as written: one pass over the lines that mutates dicts shared between the result, the indent
 stack and the pending key. It is proved to compute YamlTree.Parse, errors included.
*/
module YamlParser {
  import opened Results
  import opened Text
  import opened PyDict
  import opened YamlSyntax
  import opened YamlTree
  import opened YamlStore

  datatype Value = VScalar(v: Scalar) | VList(items: seq<Scalar>) | VDict(d: MutableDict)

  class MutableDict {
    ghost const id: nat
    var entries: seq<Entry<Value>>

    constructor (ghost id: nat)
      ensures this.id == id && entries == []
    {
      this.id := id;
      entries := [];
    }
  }

  // ----- snapshots of the dicts created so far -----

  ghost function CellOf(v: Value): Cell {
    match v
    case VScalar(s) => CScalar(s)
    case VList(items) => CList(items)
    case VDict(d) => CRef(d.id)
  }

  ghost function CellsOf(es: seq<Entry<Value>>): (r: Dict)
    ensures |r| == |es|
    ensures forall i :: 0 <= i < |es| ==> r[i] == Entry(es[i].key, CellOf(es[i].value))
  {
    if es == [] then [] else [Entry(es[0].key, CellOf(es[0].value))] + CellsOf(es[1..])
  }

  ghost function Snapshot(objs: seq<MutableDict>): (r: Store)
    reads objs
    ensures |r| == |objs| && forall i :: 0 <= i < |objs| ==> r[i] == CellsOf(objs[i].entries)
  {
    seq(|objs|, i requires 0 <= i < |objs| reads objs => CellsOf(objs[i].entries))
  }

  ghost predicate Has(objs: seq<MutableDict>, d: MutableDict) {
    d.id < |objs| && objs[d.id] == d
  }

  /** objs lists every dict by its number, and no dict refers to one that is not listed. */
  ghost predicate Listed(objs: seq<MutableDict>)
    reads objs
  {
    && objs != []
    && (forall i :: 0 <= i < |objs| ==> objs[i].id == i)
    && (forall i, e :: 0 <= i < |objs| && e in objs[i].entries && e.value.VDict? ==> Has(objs, e.value.d))
  }

  lemma {:induction false} CellsOfPut(es: seq<Entry<Value>>, key: string, v: Value)
    ensures CellsOf(Put(es, key, v)) == Put(CellsOf(es), key, CellOf(v))
  {
    if es != [] && es[0].key != key {
      CellsOfPut(es[1..], key, v);
      assert Put(es, key, v)[1..] == Put(es[1..], key, v);
    } else if es != [] {
      assert Put(es, key, v)[1..] == es[1..];
    } else {
      assert Put(es, key, v)[1..] == [];
    }
  }

  lemma {:induction false} CellsOfGet(es: seq<Entry<Value>>, key: string)
    ensures Get(CellsOf(es), key) == match Get<Value>(es, key) case None => None case Some(v) => Some(CellOf(v))
  {
    if es != [] && es[0].key != key {
      CellsOfGet(es[1..], key);
    }
  }

  lemma {:induction false} PutMembers(es: seq<Entry<Value>>, key: string, v: Value)
    ensures forall e :: e in Put(es, key, v) ==> e == Entry(key, v) || e in es
  {
    if es != [] && es[0].key != key {
      PutMembers(es[1..], key, v);
      assert forall e :: e in Put(es[1..], key, v) ==> e == Entry(key, v) || e in es;
    }
  }

  /** The store is what the listed dicts hold now. */
  ghost predicate Mirrors(objs: seq<MutableDict>, store: Store)
    reads objs
  {
    Listed(objs) && store == Snapshot(objs)
  }

  // ----- the three things the parser does to dicts -----

  /** `d[key] = v` */
  method Assign(ghost objs: seq<MutableDict>, ghost store: Store, d: MutableDict, key: string, v: Value) returns (ghost store': Store)
    requires Mirrors(objs, store) && Has(objs, d) && (v.VDict? ==> Has(objs, v.d))
    requires |store| == |objs|
    modifies d
    ensures Mirrors(objs, store') && store' == store[d.id := Put(store[d.id], key, CellOf(v))]
  {
    CellsOfPut(d.entries, key, v);
    PutMembers(d.entries, key, v);
    d.entries := Put(d.entries, key, v);
    store' := Snapshot(objs);
  }

  /** `child = {}` */
  method NewDict(ghost objs: seq<MutableDict>, ghost store: Store) returns (child: MutableDict, ghost objs': seq<MutableDict>)
    requires Mirrors(objs, store) && |store| == |objs|
    ensures fresh(child) && child.id == |objs| && objs' == objs + [child]
    ensures Mirrors(objs', store + [[]])
  {
    child := new MutableDict(|objs|);
    objs' := objs + [child];
    assert Snapshot(objs') == store + [[]];
  }

  /** `child = {}; d[key] = child` */
  method AddChild(ghost objs: seq<MutableDict>, ghost store: Store, d: MutableDict, key: string)
    returns (child: MutableDict, ghost objs': seq<MutableDict>, ghost store': Store)
    requires Mirrors(objs, store) && Has(objs, d) && |store| == |objs|
    modifies d
    ensures fresh(child) && child.id == |objs| && objs' == objs + [child]
    ensures Mirrors(objs', store') && store' == Pushed(store, d.id, key)
  {
    hide Mirrors;
    child, objs' := NewDict(objs, store);
    store' := Assign(objs', store + [[]], d, key, VDict(child));
    assert store' == Pushed(store, d.id, key);
  }

  /** `d.get(key)`, and the contents of the dict it may refer to. */
  lemma {:induction false} Fetched(objs: seq<MutableDict>, store: Store, d: MutableDict, key: string)
    requires Mirrors(objs, store) && Has(objs, d) && |store| == |objs|
    ensures match Get<Value>(d.entries, key)
            case None => Get(store[d.id], key) == None
            case Some(v) =>
              && Get(store[d.id], key) == Some(CellOf(v))
              && (v.VDict? ==> Has(objs, v.d) && store[v.d.id] == CellsOf(v.d.entries))
  {
    CellsOfGet(d.entries, key);
    var r := Get<Value>(d.entries, key);
    assert r.Some? ==> Entry(key, r.value) in objs[d.id].entries;
  }

  // ----- the parser -----

  /** An element of the indent stack: the indent of the key line and the dict it opened. */
  datatype Opened = Opened(indent: int, dict: MutableDict)

  datatype PendingKey = PendingKey(indent: int, parent: MutableDict, key: string)

  ghost function Ids(stack: seq<Opened>): (r: seq<nat>)
    ensures |r| == |stack| && forall i :: 0 <= i < |stack| ==> r[i] == stack[i].dict.id
  {
    seq(|stack|, i requires 0 <= i < |stack| => stack[i].dict.id)
  }

  /** The stack and the pending key name listed dicts and carry the frames' indents and keys. */
  ghost predicate Variables(objs: seq<MutableDict>, stack: seq<Opened>, pending: Option<PendingKey>, frames: seq<Frame>) {
    && stack != []
    && |stack| == |frames|
    && (forall i :: 0 <= i < |stack| ==> Has(objs, stack[i].dict) && stack[i].indent == frames[i].indent)
    && (pending.Some? ==>
          && |frames| >= 2
          && pending.value == PendingKey(frames[|frames| - 1].indent, stack[|frames| - 2].dict, frames[|frames| - 1].key))
  }

  ghost predicate Matches(store: Store, ids: seq<nat>, frames: seq<Frame>, pending: bool) {
    Rel(store, ids, frames) && Valid(State(frames, pending))
  }

  /** The parser's variables stand for a state of YamlTree. */
  ghost predicate Represents(objs: seq<MutableDict>, store: Store, stack: seq<Opened>, pending: Option<PendingKey>, frames: seq<Frame>)
    reads objs
  {
    && |store| == |objs|
    && Mirrors(objs, store)
    && Variables(objs, stack, pending, frames)
    && Matches(store, Ids(stack), frames, pending.Some?)
  }

  lemma {:induction false} CloseMatches(store: Store, ids: seq<nat>, frames: seq<Frame>, pending: bool)
    requires Matches(store, ids, frames, pending) && 0 <= frames[|frames| - 1].indent
    ensures |ids| >= 2 && Matches(store, ids[..|ids| - 1], CloseLast(frames), false)
  {
    CloseLastValid(frames);
    CloseRel(store, ids, frames);
  }

  lemma {:induction false} DropPending(store: Store, ids: seq<nat>, frames: seq<Frame>, pending: bool)
    requires Matches(store, ids, frames, pending)
    ensures Matches(store, ids, frames, false)
  {
  }

  lemma {:induction false} PutMatches(store: Store, ids: seq<nat>, frames: seq<Frame>, pending: bool, key: string, v: Scalar)
    requires Matches(store, ids, frames, pending)
    ensures var t := ids[|ids| - 1];
            Matches(store[t := Put(store[t], key, CScalar(v))], ids, PutTop(frames, key, Leaf(v)), false)
  {
    PutScalarRel(store, ids, frames, key, v);
    PutTopValid(frames, key, Leaf(v));
  }

  lemma {:induction false} PushMatches(store: Store, ids: seq<nat>, frames: seq<Frame>, pending: bool, key: string, indent: nat)
    requires Matches(store, ids, frames, pending) && frames[|frames| - 1].indent < indent
    ensures Matches(Pushed(store, ids[|ids| - 1], key), ids + [|store|],
                    PutTop(frames, key, Node([])) + [Frame(indent, key, [], false)], true)
  {
    PushRel(store, ids, frames, key, indent);
    PushValid(frames, indent, key);
  }

  lemma {:induction false} AttachMatches(store: Store, ids: seq<nat>, frames: seq<Frame>, items: seq<Scalar>)
    requires Matches(store, ids, frames, true) && items != []
    ensures |ids| >= 2
    ensures var p := ids[|ids| - 2];
            Matches(store[p := Put(store[p], frames[|frames| - 1].key, CList(items))], ids, AttachItems(frames, items), true)
  {
    AttachRel(store, ids, frames, items);
    AttachValid(frames, items);
  }

  /** `while stack and indent <= stack[-1][0]: stack.pop()`; the stack never empties. */
  method PopStack(ghost objs: seq<MutableDict>, ghost store: Store, stack: seq<Opened>, ghost frames: seq<Frame>, ghost pending: bool, indent: nat)
    returns (s: seq<Opened>, ghost f: seq<Frame>)
    requires Variables(objs, stack, None, frames) && Matches(store, Ids(stack), frames, pending)
    ensures Variables(objs, s, None, f) && Matches(store, Ids(s), f, false)
    ensures f == PopTo(frames, indent) && s[|s| - 1].indent < indent
  {
    hide Matches;
    DropPending(store, Ids(stack), frames, pending);
    s, f := stack, frames;
    while |s| > 0 && indent <= s[|s| - 1].indent
      invariant Variables(objs, s, None, f) && Matches(store, Ids(s), f, false)
      invariant PopTo(f, indent) == PopTo(frames, indent)
      decreases |s|
    {
      CloseMatches(store, Ids(s), f, false);
      assert Ids(s[..|s| - 1]) == Ids(s)[..|s| - 1];
      s, f := s[..|s| - 1], CloseLast(f);
    }
  }

  /** The list a list item extends: the one started before, or a new one in the place of the still empty child. */
  function ItemsAfter(current: Option<Value>, item: Scalar): seq<Scalar> {
    match current case Some(VList(xs)) => xs + [item] case _ => [item]
  }

  /** What the pending key holds in the parent's dict, and that appending there is what YamlTree does. */
  lemma {:induction false} CurrentValue(objs: seq<MutableDict>, store: Store, stack: seq<Opened>, pending: PendingKey, frames: seq<Frame>, item: Scalar)
    requires Represents(objs, store, stack, Some(pending), frames)
    ensures var current := Get<Value>(pending.parent.entries, pending.key);
            && current.Some? && (current.value.VList? || (current.value.VDict? && current.value.d.entries == []))
            && AddItem(frames, item) == Ok(AttachItems(frames, ItemsAfter(current, item)))
  {
    var n := |frames| - 1;
    ChildCell(store, Ids(stack), frames);
    Fetched(objs, store, pending.parent, pending.key);
    assert ChildEntry(frames[n - 1], frames[n]);
  }

  /** The list branch: fetch or start the list under the pending key and append the item. */
  method AppendItem(ghost objs: seq<MutableDict>, ghost store: Store, stack: seq<Opened>, ghost frames: seq<Frame>, pending: PendingKey, item: Scalar)
    returns (ghost store': Store, ghost f: seq<Frame>)
    requires Represents(objs, store, stack, Some(pending), frames)
    modifies pending.parent
    ensures AddItem(frames, item) == Ok(f)
    ensures Represents(objs, store', stack, Some(pending), f)
  {
    hide Mirrors;
    var current := Get<Value>(pending.parent.entries, pending.key);
    CurrentValue(objs, store, stack, pending, frames, item);
    // any other value would be the "Mixed mapping/list" error
    var items := match current case Some(VList(xs)) => xs + [item] case Some(VDict(d)) => [item];
    AttachMatches(store, Ids(stack), frames, items);
    f := AttachItems(frames, items);
    store' := Assign(objs, store, pending.parent, pending.key, VList(items));
  }

  /** `parent[key] = scalar` on the newest open dict. */
  method PutScalar(ghost objs: seq<MutableDict>, ghost store: Store, stack: seq<Opened>, ghost frames: seq<Frame>, key: string, v: Scalar)
    returns (ghost store': Store, ghost f: seq<Frame>)
    requires Represents(objs, store, stack, None, frames)
    modifies stack[|stack| - 1].dict
    ensures f == PutTop(frames, key, Leaf(v))
    ensures Represents(objs, store', stack, None, f)
  {
    hide Mirrors;
    PutMatches(store, Ids(stack), frames, false, key, v);
    f := PutTop(frames, key, Leaf(v));
    store' := Assign(objs, store, stack[|stack| - 1].dict, key, VScalar(v));
  }

  /** A key without a value: a new dict goes into the top dict and onto the stack, and may be replaced by list items. */
  method OpenChild(ghost objs: seq<MutableDict>, ghost store: Store, stack: seq<Opened>, ghost frames: seq<Frame>, key: string, indent: nat)
    returns (s: seq<Opened>, p: PendingKey, ghost objs': seq<MutableDict>, ghost store': Store, ghost f: seq<Frame>)
    requires Represents(objs, store, stack, None, frames) && stack[|stack| - 1].indent < indent
    modifies stack[|stack| - 1].dict
    ensures f == PutTop(frames, key, Node([])) + [Frame(indent, key, [], false)]
    ensures Represents(objs', store', s, Some(p), f)
    ensures s != [] && fresh(s[|s| - 1].dict) && objs' == objs + [s[|s| - 1].dict]
  {
    hide Mirrors, Matches;
    var parent := stack[|stack| - 1].dict;
    PushMatches(store, Ids(stack), frames, false, key, indent);
    f := PutTop(frames, key, Node([])) + [Frame(indent, key, [], false)];
    var child;
    child, objs', store' := AddChild(objs, store, parent, key);
    s := stack + [Opened(indent, child)];
    assert Ids(s) == Ids(stack) + [|store|];
    p := PendingKey(indent, parent, key);
  }

  lemma {:induction false} StartRepresents(objs: seq<MutableDict>, root: MutableDict)
    requires objs == [root] && root.id == 0 && root.entries == []
    ensures Represents(objs, [[]], [Opened(-1, root)], None, START.frames)
  {
    var stack := [Opened(-1, root)];
    assert Ids(stack) == [0];
    assert Snapshot(objs) == [[]];
    assert ReadEntries([[]], Open([0]), 0, []) == [];
  }

  lemma {:induction false} FinishRead(store: Store, ids: seq<nat>, frames: seq<Frame>, pending: bool)
    requires Matches(store, ids, frames, pending)
    ensures |store| > 0 && ReadEntries(store, {}, 0, store[0]) == Finish(State(frames, pending))
    decreases |ids|
  {
    if |ids| == 1 {
      RootRead(store, ids, frames);
    } else {
      assert frames[0].indent < frames[|frames| - 1].indent;
      CloseMatches(store, ids, frames, pending);
      FinishRead(store, ids[..|ids| - 1], CloseLast(frames), false);
    }
  }

  /** The run of all lines has reached this state with lines i.. still to read. */
  ghost predicate Reached(all: seq<Line>, i: nat, st: State) {
    i <= |all| && Valid(st) && Run(START, all) == Run(st, all[i..])
  }

  lemma {:induction false} ReachStart(all: seq<Line>)
    ensures Reached(all, 0, START)
  {
    assert all[0..] == all;
  }

  lemma {:induction false} ReachEnd(all: seq<Line>, st: State)
    requires Reached(all, |all|, st)
    ensures Run(START, all) == Ok(st)
  {
    assert all[|all|..] == [];
  }

  lemma {:induction false} ReachNext(all: seq<Line>, i: nat, st: State)
    requires Reached(all, i, st) && i < |all|
    ensures match Refusal(st, all[i])
            case Some(e) => Step(st, all[i]) == Err(e) && Run(START, all) == Err(e)
            case None => Step(st, all[i]).Ok? && Reached(all, i + 1, Step(st, all[i]).value)
  {
    StepValid(st, all[i]);
    assert all[i..][0] == all[i] && all[i..][1..] == all[i + 1..];
  }

  lemma {:induction false} ReachScalar(all: seq<Line>, i: nat, st: State, indent: nat, key: string, v: Scalar)
    requires Reached(all, i, st) && i < |all| && all[i] == Pair(indent, key, Some(v))
    ensures Reached(all, i + 1, State(PutTop(PopTo(st.frames, indent), key, Leaf(v)), false))
  {
    ReachNext(all, i, st);
  }

  lemma {:induction false} ReachMapping(all: seq<Line>, i: nat, st: State, indent: nat, key: string)
    requires Reached(all, i, st) && i < |all| && all[i] == Pair(indent, key, None)
    ensures Reached(all, i + 1, State(PutTop(PopTo(st.frames, indent), key, Node([])) + [Frame(indent, key, [], false)], true))
  {
    ReachNext(all, i, st);
  }

  /** The dict and everything it refers to, read as a tree. */
  ghost predicate Denotes(objs: seq<MutableDict>, d: MutableDict, es: seq<Entry<Tree>>)
    reads objs
  {
    Listed(objs) && d == objs[0] && ReadEntries(Snapshot(objs), {}, 0, CellsOf(d.entries)) == es
  }

  lemma {:induction false} Finished(objs: seq<MutableDict>, store: Store, stack: seq<Opened>, pending: Option<PendingKey>, frames: seq<Frame>)
    requires Represents(objs, store, stack, pending, frames)
    ensures objs != [] && Denotes(objs, objs[0], Finish(State(frames, pending.Some?)))
  {
    FinishRead(store, Ids(stack), frames, pending.Some?);
  }

  method ParseSimpleYaml(text: string) returns (r: Result<MutableDict, YamlError>, ghost objs: seq<MutableDict>)
    ensures match Parse(text)
            case Ok(es) => r.Ok? && Denotes(objs, r.value, es)
            case Err(e) => r == Err(e)
  {
    hide Denotes, Mirrors, Matches, Reached, PutTop, PopTo, ReadLine, Finish, Run;
    var root := new MutableDict(0);
    var stack := [Opened(-1, root)];
    var pending: Option<PendingKey> := None;
    objs := [root];
    ghost var frames, store := START.frames, [[]];
    StartRepresents(objs, root);
    var lines := SplitLines(text);
    ghost var all := ReadLines(lines);
    ReachStart(all);
    for i := 0 to |lines|
      invariant objs != [] && root == objs[0]
      invariant fresh(objs)
      invariant Represents(objs, store, stack, pending, frames)
      invariant Reached(all, i, State(frames, pending.Some?))
    {
      ghost var st := State(frames, pending.Some?);
      match ReadLine(lines[i]) {
        case Blank =>
          ReachNext(all, i, st);
        case NoColon(_) =>
          ReachNext(all, i, st);
          return Err(InvalidLine), objs;
        case Item(indent, item) =>
          ReachNext(all, i, st);
          if pending.None? {
            return Err(ListItemWithoutParentKey), objs;
          }
          if indent <= pending.value.indent {
            return Err(InvalidListIndentation), objs;
          }
          store, frames := AppendItem(objs, store, stack, frames, pending.value, item);
        case Pair(indent, key, value) =>
          stack, frames := PopStack(objs, store, stack, frames, pending.Some?, indent);
          match value {
            case Some(v) =>
              ReachScalar(all, i, st, indent, key, v);
              store, frames := PutScalar(objs, store, stack, frames, key, v);
              pending := None;
            case None =>
              ReachMapping(all, i, st, indent, key);
              var child;
              stack, child, objs, store, frames := OpenChild(objs, store, stack, frames, key, indent);
              pending := Some(child);
          }
      }
    }
    Finished(objs, store, stack, pending, frames);
    ReachEnd(all, State(frames, pending.Some?));
    r := Ok(root);
  }
}
