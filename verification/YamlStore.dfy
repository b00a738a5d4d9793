/**
 Mutable dicts that refer to each other, and what one of them denotes. A store is a snapshot of every dict the
 parser has created; the relation Rel says how such a snapshot stands for the frames of YamlTree.
*/
module YamlStore {
  import opened Results
  import opened PyDict
  import opened YamlSyntax
  import opened YamlTree

  /** A dict entry's value: a reference names the dict by its creation number. */
  datatype Cell = CScalar(v: Scalar) | CList(items: seq<Scalar>) | CRef(id: nat)

  type Dict = seq<Entry<Cell>>
  type Store = seq<Dict>

  /** Read entries of dict lo as trees. References point forward; an open dict reads as the empty mapping. */
  function ReadEntries(store: Store, open: set<nat>, lo: nat, es: Dict): (r: seq<Entry<Tree>>)
    ensures |r| == |es|
    decreases |store| - lo, |es|, 1
  {
    if es == [] then []
    else [Entry(es[0].key, ReadCell(store, open, lo, es[0].value))] + ReadEntries(store, open, lo, es[1..])
  }

  function ReadCell(store: Store, open: set<nat>, lo: nat, c: Cell): Tree
    decreases |store| - lo, 0, 0
  {
    match c
    case CScalar(v) => Leaf(v)
    case CList(items) => Items(items)
    case CRef(id) => if id !in open && lo < id < |store| then Node(ReadEntries(store, open, id, store[id])) else Node([])
  }

  /** Every reference in dict lo's entries points past lo and inside the store. */
  ghost predicate Forward(n: nat, lo: nat, es: Dict) {
    forall e :: e in es && e.value.CRef? ==> lo < e.value.id < n
  }

  ghost predicate Avoids(es: Dict, open: set<nat>) {
    forall e :: e in es && e.value.CRef? ==> e.value.id !in open
  }

  /** The two sets agree on every reference in the entries. */
  ghost predicate Agree(es: Dict, open: set<nat>, open': set<nat>) {
    forall e :: e in es && e.value.CRef? ==> (e.value.id in open <==> e.value.id in open')
  }

  /** Closed dicts are untouched and read the same under both sets. */
  ghost predicate SameClosed(store: Store, open: set<nat>, store': Store, open': set<nat>) {
    && |store| <= |store'|
    && forall i :: 0 <= i < |store| && i !in open ==>
         store'[i] == store[i] && Forward(|store|, i, store[i]) && Agree(store[i], open, open')
  }

  lemma {:induction false} ReadSame(store: Store, open: set<nat>, store': Store, open': set<nat>, lo: nat, es: Dict)
    requires SameClosed(store, open, store', open')
    requires Forward(|store|, lo, es) && Agree(es, open, open')
    ensures ReadEntries(store, open, lo, es) == ReadEntries(store', open', lo, es)
    decreases |store| - lo, |es|
  {
    if es != [] {
      assert Forward(|store|, lo, es[1..]) && Agree(es[1..], open, open');
      ReadSame(store, open, store', open', lo, es[1..]);
      match es[0].value {
        case CRef(id) =>
          if id !in open {
            ReadSame(store, open, store', open', id, store[id]);
          }
        case _ =>
      }
    }
  }

  lemma {:induction false} ReadPut(store: Store, open: set<nat>, lo: nat, es: Dict, key: string, c: Cell)
    ensures ReadEntries(store, open, lo, Put(es, key, c)) == Put(ReadEntries(store, open, lo, es), key, ReadCell(store, open, lo, c))
    decreases |es|
  {
    if es != [] && es[0].key != key {
      ReadPut(store, open, lo, es[1..], key, c);
      assert Put(es, key, c)[1..] == Put(es[1..], key, c);
    } else if es != [] {
      assert Put(es, key, c)[1..] == es[1..];
    } else {
      assert Put(es, key, c)[1..] == [];
    }
  }

  lemma {:induction false} ReadGet(store: Store, open: set<nat>, lo: nat, es: Dict, key: string)
    ensures Get(ReadEntries(store, open, lo, es), key)
         == match Get<Cell>(es, key) case None => None case Some(c) => Some(ReadCell(store, open, lo, c))
    decreases |es|
  {
    if es != [] && es[0].key != key {
      ReadGet(store, open, lo, es[1..], key);
    }
  }

  lemma {:induction false} PutKeepsFresh<V>(es: seq<Entry<V>>, key: string, v: V, k: string)
    requires k != key && Fresh(es, k)
    ensures Fresh(Put(es, key, v), k)
  {
    if es != [] && es[0].key != key {
      PutKeepsFresh(es[1..], key, v, k);
      assert Put(es, key, v) == [es[0]] + Put(es[1..], key, v);
    } else if es != [] {
      assert Put(es, key, v) == [Entry(key, v)] + es[1..];
    }
  }

  lemma {:induction false} PutKeepsDistinct<V>(es: seq<Entry<V>>, key: string, v: V)
    requires DistinctKeys(es)
    ensures DistinctKeys(Put(es, key, v))
  {
    if es != [] && es[0].key != key {
      PutKeepsDistinct(es[1..], key, v);
      var rest := Put(es[1..], key, v);
      PutKeepsFresh(es[1..], key, v, es[0].key);
      assert Put(es, key, v) == [es[0]] + rest;
    } else if es != [] {
      assert Put(es, key, v) == [Entry(key, v)] + es[1..];
    }
  }

  /** Every entry of an updated dict is the new one or an old one under another key. */
  lemma {:induction false} PutEntries<V>(es: seq<Entry<V>>, key: string, v: V)
    requires DistinctKeys(es)
    ensures forall e :: e in Put(es, key, v) ==> e == Entry(key, v) || (e in es && e.key != key)
  {
    if es != [] && es[0].key != key {
      PutEntries(es[1..], key, v);
      var rest := Put(es[1..], key, v);
      assert Put(es, key, v) == [es[0]] + rest;
      assert forall e :: e in rest ==> e == Entry(key, v) || (e in es && e.key != key);
    } else if es != [] {
      assert forall i :: 0 < i < |es| ==> es[i].key != key;
    }
  }

  // ----- the relation between a store and the open frames -----

  ghost function Open(stack: seq<nat>): set<nat> {
    set x | x in stack
  }

  ghost predicate Increasing(stack: seq<nat>, n: nat) {
    && stack != [] && stack[0] == 0
    && (forall i, j :: 0 <= i < j < |stack| ==> stack[i] < stack[j])
    && (forall i :: 0 <= i < |stack| ==> stack[i] < n)
  }

  /** A dict of the store: no key twice, references forward, and a closed dict refers to closed ones only. */
  ghost predicate DictOk(store: Store, stack: seq<nat>, i: nat)
    requires i < |store|
  {
    && DistinctKeys(store[i])
    && Forward(|store|, i, store[i])
    && (i !in stack ==> Avoids(store[i], Open(stack)))
  }

  /** An open dict reads as its frame, and its only reference to an open dict is to its attached child. */
  ghost predicate Level(store: Store, stack: seq<nat>, frames: seq<Frame>, k: nat)
    requires Increasing(stack, |store|) && |stack| == |frames| && k < |stack|
  {
    var es := store[stack[k]];
    && frames[k].entries == ReadEntries(store, Open(stack), stack[k], es)
    && (forall e :: e in es && e.value.CRef? && e.value.id in Open(stack) ==>
          k + 1 < |stack| && !frames[k + 1].detached && e == Entry(frames[k + 1].key, CRef(stack[k + 1])))
    && (k > 0 && !frames[k].detached ==> Get<Cell>(store[stack[k - 1]], frames[k].key) == Some(CRef(stack[k])))
  }

  ghost predicate Rel(store: Store, stack: seq<nat>, frames: seq<Frame>) {
    && Increasing(stack, |store|)
    && |stack| == |frames|
    && (forall i :: 0 <= i < |store| ==> DictOk(store, stack, i))
    && (forall k :: 0 <= k < |stack| ==> Level(store, stack, frames, k))
  }

  lemma {:induction false} SameClosedIntro(store: Store, stack: seq<nat>, frames: seq<Frame>, store': Store, open': set<nat>)
    requires Rel(store, stack, frames)
    requires |store| <= |store'|
    requires forall i :: 0 <= i < |store| && i !in stack ==> store'[i] == store[i]
    requires forall x :: x < |store| ==> (x in open' ==> x in stack)
    ensures SameClosed(store, Open(stack), store', open')
  {
    forall i | 0 <= i < |store| && i !in Open(stack)
      ensures store'[i] == store[i] && Forward(|store|, i, store[i]) && Agree(store[i], Open(stack), open')
    {
      assert DictOk(store, stack, i);
    }
  }

  /** Assigning a scalar to the newest open dict. */
  lemma {:induction false} PutScalarRel(store: Store, stack: seq<nat>, frames: seq<Frame>, key: string, v: Scalar)
    requires Rel(store, stack, frames)
    ensures var t := stack[|stack| - 1];
            Rel(store[t := Put(store[t], key, CScalar(v))], stack, PutTop(frames, key, Leaf(v)))
  {
    var n := |stack| - 1;
    var t, open := stack[n], Open(stack);
    var store' := store[t := Put(store[t], key, CScalar(v))];
    var frames' := PutTop(frames, key, Leaf(v));
    assert DictOk(store, stack, t);
    PutKeepsDistinct(store[t], key, CScalar(v));
    PutEntries(store[t], key, CScalar(v));
    SameClosedIntro(store, stack, frames, store', open);
    forall i | 0 <= i < |store'|
      ensures DictOk(store', stack, i)
    {
      assert DictOk(store, stack, i);
    }
    forall k | 0 <= k < |stack|
      ensures Level(store', stack, frames', k)
    {
      assert Level(store, stack, frames, k);
      assert DictOk(store, stack, stack[k]);
      ReadSame(store, open, store', open, stack[k], store[stack[k]]);
      if k == n {
        ReadPut(store', open, t, store[t], key, CScalar(v));
      }
    }
  }

  ghost function Pushed(store: Store, t: nat, key: string): Store
    requires t < |store|
  {
    store[t := Put(store[t], key, CRef(|store|))] + [[]]
  }

  lemma {:induction false} PushedDicts(store: Store, stack: seq<nat>, frames: seq<Frame>, key: string)
    requires Rel(store, stack, frames)
    ensures var store' := Pushed(store, stack[|stack| - 1], key);
            forall i :: 0 <= i < |store'| ==> DictOk(store', stack + [|store|], i)
  {
    var t := stack[|stack| - 1];
    var store' := Pushed(store, t, key);
    var stack' := stack + [|store|];
    assert DictOk(store, stack, t);
    PutKeepsDistinct(store[t], key, CRef(|store|));
    PutEntries(store[t], key, CRef(|store|));
    forall i | 0 <= i < |store'|
      ensures DictOk(store', stack', i)
    {
      if i < |store| {
        assert DictOk(store, stack, i);
      }
    }
  }

  lemma {:induction false} PushedLevel(store: Store, stack: seq<nat>, frames: seq<Frame>, key: string, indent: nat, k: nat)
    requires Rel(store, stack, frames) && k < |stack|
    ensures Level(Pushed(store, stack[|stack| - 1], key), stack + [|store|],
                  PutTop(frames, key, Node([])) + [Frame(indent, key, [], false)], k)
  {
    var n, made := |stack| - 1, |store|;
    var t, open, stack' := stack[n], Open(stack), stack + [made];
    var store' := Pushed(store, t, key);
    assert Open(stack') == open + {made};
    SameClosedIntro(store, stack, frames, store', Open(stack'));
    assert Level(store, stack, frames, k);
    assert DictOk(store, stack, stack[k]);
    ReadSame(store, open, store', Open(stack'), stack[k], store[stack[k]]);
    if k == n {
      PutEntries(store[t], key, CRef(made));
      ReadPut(store', Open(stack'), t, store[t], key, CRef(made));
    }
  }

  /** Opening a nested mapping: a new dict, referenced under the key by the newest open one. */
  lemma {:induction false} PushRel(store: Store, stack: seq<nat>, frames: seq<Frame>, key: string, indent: nat)
    requires Rel(store, stack, frames)
    ensures Rel(Pushed(store, stack[|stack| - 1], key), stack + [|store|],
                PutTop(frames, key, Node([])) + [Frame(indent, key, [], false)])
  {
    var store' := Pushed(store, stack[|stack| - 1], key);
    var stack' := stack + [|store|];
    var frames' := PutTop(frames, key, Node([])) + [Frame(indent, key, [], false)];
    PushedDicts(store, stack, frames, key);
    GetPut(store[stack[|stack| - 1]], key, CRef(|store|));
    forall k | 0 <= k < |stack'|
      ensures Level(store', stack', frames', k)
    {
      if k < |stack| {
        PushedLevel(store, stack, frames, key, indent, k);
      }
    }
  }

  /** Putting list items in the place of the newest open dict. */
  lemma {:induction false} AttachRel(store: Store, stack: seq<nat>, frames: seq<Frame>, items: seq<Scalar>)
    requires Rel(store, stack, frames) && |stack| >= 2
    ensures var p := stack[|stack| - 2];
            Rel(store[p := Put(store[p], frames[|frames| - 1].key, CList(items))], stack, AttachItems(frames, items))
  {
    var n := |stack| - 1;
    var p, open, key := stack[n - 1], Open(stack), frames[n].key;
    var store' := store[p := Put(store[p], key, CList(items))];
    var frames' := AttachItems(frames, items);
    assert DictOk(store, stack, p);
    PutKeepsDistinct(store[p], key, CList(items));
    PutEntries(store[p], key, CList(items));
    SameClosedIntro(store, stack, frames, store', open);
    forall i | 0 <= i < |store'|
      ensures DictOk(store', stack, i)
    {
      assert DictOk(store, stack, i);
    }
    forall k | 0 <= k < |stack|
      ensures Level(store', stack, frames', k)
    {
      assert Level(store, stack, frames, k);
      assert DictOk(store, stack, stack[k]);
      ReadSame(store, open, store', open, stack[k], store[stack[k]]);
      if k == n - 1 {
        ReadPut(store', open, p, store[p], key, CList(items));
      }
    }
  }

  /** An entry that refers to a dict just closed reads as that dict's entries; the others read as before. */
  lemma {:induction false} ReadThroughChild(store: Store, open: set<nat>, p: nat, c: nat, key: string, child: seq<Entry<Tree>>)
    requires p < c < |store| && DistinctKeys(store[p])
    requires Get<Cell>(store[p], key) == Some(CRef(c))
    requires SameClosed(store, open, store, open - {c})
    requires Forward(|store|, p, store[p])
    requires forall e :: e in store[p] && e.value.CRef? && e.value.id in open ==> e == Entry(key, CRef(c))
    requires ReadEntries(store, open - {c}, c, store[c]) == child
    ensures ReadEntries(store, open - {c}, p, store[p]) == Put(ReadEntries(store, open, p, store[p]), key, Node(child))
  {
    var es, open' := store[p], open - {c};
    var es0 := Put(es, key, CScalar(SNull));
    PutEntries(es, key, CScalar(SNull));
    PutPut(es, key, CScalar(SNull), CRef(c));
    PutSame(es, key, CRef(c));
    ReadPut(store, open', p, es0, key, CRef(c));
    ReadSame(store, open, store, open', p, es0);
    ReadPut(store, open, p, es, key, CScalar(SNull));
    PutPut(ReadEntries(store, open, p, es), key, Leaf(SNull), Node(child));
  }

  /** Reading the parent once its child is closed: the child's entries appear in place. */
  lemma {:induction false} ReadClosedChild(store: Store, stack: seq<nat>, frames: seq<Frame>)
    requires Rel(store, stack, frames) && |stack| >= 2
    ensures var n := |stack| - 1;
            ReadEntries(store, Open(stack[..n]), stack[n - 1], store[stack[n - 1]]) == Close(frames[n - 1], frames[n]).entries
  {
    var n := |stack| - 1;
    var p, c, open, open' := stack[n - 1], stack[n], Open(stack), Open(stack[..n]);
    assert open' == open - {c};
    assert Level(store, stack, frames, n - 1) && Level(store, stack, frames, n);
    assert DictOk(store, stack, p) && DictOk(store, stack, c);
    SameClosedIntro(store, stack, frames, store, open');
    if frames[n].detached {
      ReadSame(store, open, store, open', p, store[p]);
    } else {
      ReadSame(store, open, store, open', c, store[c]);
      ReadThroughChild(store, open, p, c, frames[n].key, frames[n].entries);
    }
  }

  /** Leaving the newest open dict changes no dict: only the frames close. */
  lemma {:induction false} CloseRel(store: Store, stack: seq<nat>, frames: seq<Frame>)
    requires Rel(store, stack, frames) && |stack| >= 2
    ensures Rel(store, stack[..|stack| - 1], CloseLast(frames))
  {
    hide ReadEntries, Forward, DistinctKeys;
    var n := |stack| - 1;
    var c, open, stack', frames' := stack[n], Open(stack), stack[..n], CloseLast(frames);
    assert Open(stack') == open - {c};
    assert Level(store, stack, frames, n);
    SameClosedIntro(store, stack, frames, store, Open(stack'));
    ReadClosedChild(store, stack, frames);
    forall i | 0 <= i < |store|
      ensures DictOk(store, stack', i)
    {
      assert DictOk(store, stack, i);
    }
    forall k | 0 <= k < |stack'|
      ensures Level(store, stack', frames', k)
    {
      assert Level(store, stack, frames, k);
      assert DictOk(store, stack, stack[k]);
      if k < n - 1 {
        ReadSame(store, open, store, Open(stack'), stack[k], store[stack[k]]);
      }
    }
  }

  /** What the parent's dict holds for its newest open child is what the frames say. */
  lemma {:induction false} ChildCell(store: Store, stack: seq<nat>, frames: seq<Frame>)
    requires Rel(store, stack, frames) && Valid(State(frames, true))
    ensures var n := |stack| - 1;
            var cell := Get<Cell>(store[stack[n - 1]], frames[n].key);
            match Get<Tree>(frames[n - 1].entries, frames[n].key)
            case Some(Items(xs)) => cell == Some(CList(xs))
            case _ => cell == Some(CRef(stack[n])) && store[stack[n]] == []
  {
    var n := |stack| - 1;
    assert Level(store, stack, frames, n - 1) && Level(store, stack, frames, n);
    assert ChildEntry(frames[n - 1], frames[n]);
    ReadGet(store, Open(stack), stack[n - 1], store[stack[n - 1]], frames[n].key);
  }

  /** With only the root open, the root dict denotes the root frame's entries. */
  lemma {:induction false} RootRead(store: Store, stack: seq<nat>, frames: seq<Frame>)
    requires Rel(store, stack, frames) && |stack| == 1
    ensures ReadEntries(store, {}, 0, store[0]) == frames[0].entries
  {
    assert Level(store, stack, frames, 0);
    assert DictOk(store, stack, 0);
    SameClosedIntro(store, stack, frames, store, {});
    ReadSame(store, Open(stack), store, {}, 0, store[0]);
  }
}
