/** The queue operations on item sequences, and what they preserve. */
module QueueSpec {
  import opened Results
  import opened Issues

  type Items = seq<WorkerIssue>

  function IndexOf(items: Items, key: string): (r: Option<nat>)
    ensures r.Some? ==> r.value < |items| && items[r.value].Key() == key
    ensures r.Some? ==> forall j :: 0 <= j < r.value ==> items[j].Key() != key
    ensures r.None? ==> forall j :: 0 <= j < |items| ==> items[j].Key() != key
  {
    if items == [] then None
    else if items[0].Key() == key then Some(0)
    else
      assert forall k :: 0 < k < |items| ==> items[k] == items[1..][k - 1];
      match IndexOf(items[1..], key)
      case None => None
      case Some(j) => Some(j + 1)
  }

  predicate HasKey(items: Items, key: string) {
    exists j :: 0 <= j < |items| && items[j].Key() == key
  }

  predicate Distinct(items: Items) {
    forall i, j :: 0 <= i < j < |items| ==> items[i].Key() != items[j].Key()
  }

  function Enqueued(items: Items, issue: WorkerIssue): Items {
    if HasKey(items, issue.Key()) then items else items + [issue]
  }

  function Retried(issue: WorkerIssue, now: Timestamp): WorkerIssue {
    issue.(attempts := issue.attempts + 1, enqueuedAt := now)
  }

  lemma {:induction false} RetryKeepsKey(issue: WorkerIssue, now: Timestamp)
    ensures Retried(issue, now).Key() == issue.Key()
  {
  }

  function Without(items: Items, key: string): Items {
    match IndexOf(items, key) case Some(i) => items[..i] + items[i + 1..] case None => items
  }

  function MovedToFront(items: Items, key: string): Items {
    match IndexOf(items, key) case Some(i) => [items[i]] + items[..i] + items[i + 1..] case None => items
  }

  datatype QueueOp =
    | Enqueue(issue: WorkerIssue)
    | RetryEnqueue(retry: WorkerIssue, now: Timestamp)
    | Dequeue
    | DequeueIssue(key: string)
    | Clear
    | MoveToFront(front: string)

  function Apply(items: Items, op: QueueOp): Items {
    match op
    case Enqueue(issue) => Enqueued(items, issue)
    case RetryEnqueue(issue, now) => Enqueued(items, Retried(issue, now))
    case Dequeue => if items == [] then [] else items[1..]
    case DequeueIssue(key) => Without(items, key)
    case Clear => []
    case MoveToFront(key) => MovedToFront(items, key)
  }

  function ApplyAll(items: Items, ops: seq<QueueOp>): Items
    decreases |ops|
  {
    if ops == [] then items else ApplyAll(Apply(items, ops[0]), ops[1..])
  }

  lemma {:induction false} ApplyAllConcat(items: Items, a: seq<QueueOp>, b: seq<QueueOp>)
    ensures ApplyAll(items, a + b) == ApplyAll(ApplyAll(items, a), b)
    decreases |a|
  {
    hide Apply;
    if a == [] {
      assert a + b == b;
    } else {
      assert (a + b)[1..] == a[1..] + b;
      ApplyAllConcat(Apply(items, a[0]), a[1..], b);
    }
  }

  lemma {:induction false} ApplyKeepsDistinct(items: Items, op: QueueOp)
    requires Distinct(items)
    ensures Distinct(Apply(items, op))
  {
    hide WorkerIssue.Key;
  }

  /** No sequence of queue operations ever puts one key in the queue twice. */
  lemma {:induction false} ApplyAllKeepsDistinct(items: Items, ops: seq<QueueOp>)
    requires Distinct(items)
    ensures Distinct(ApplyAll(items, ops))
    decreases |ops|
  {
    hide Apply, Distinct;
    if ops != [] {
      ApplyKeepsDistinct(items, ops[0]);
      ApplyAllKeepsDistinct(Apply(items, ops[0]), ops[1..]);
    }
  }

  /** The items with the given key, or all others, in queue order. */
  function Select(items: Items, key: string, same: bool): Items {
    if items == [] then []
    else (if (items[0].Key() == key) == same then [items[0]] else []) + Select(items[1..], key, same)
  }

  lemma {:induction false} SelectConcat(a: Items, b: Items, key: string, same: bool)
    ensures Select(a + b, key, same) == Select(a, key, same) + Select(b, key, same)
  {
    hide WorkerIssue.Key;
    if a == [] {
      assert a + b == b;
    } else {
      assert (a + b)[1..] == a[1..] + b;
      SelectConcat(a[1..], b, key, same);
    }
  }

  lemma {:induction false} SelectNone(items: Items, key: string)
    requires forall j :: 0 <= j < |items| ==> items[j].Key() != key
    ensures Select(items, key, true) == [] && Select(items, key, false) == items
  {
    hide WorkerIssue.Key;
    if items != [] {
      SelectNone(items[1..], key);
    }
  }

  lemma {:induction false} SelectSwapped(before: Items, moved: WorkerIssue, after: Items, key: string, same: bool)
    requires Select(before, key, true) == [] && moved.Key() == key
    ensures Select([moved] + before + after, key, same) == Select(before + [moved] + after, key, same)
  {
    hide WorkerIssue.Key;
    SelectConcat(before + [moved], after, key, same);
    SelectConcat(before, [moved], key, same);
    SelectConcat([moved] + before, after, key, same);
    SelectConcat([moved], before, key, same);
    assert [moved][1..] == [];
  }

  /**
   Moving a key to the front puts its first item there and keeps everything else in order: the other keys' items
   are the same sequence as before, and so are the key's own items.
  */
  lemma {:induction false} MoveToFrontKeepsOrder(items: Items, key: string)
    ensures var r := MovedToFront(items, key);
            && Select(r, key, false) == Select(items, key, false)
            && Select(r, key, true) == Select(items, key, true)
            && (HasKey(items, key) ==> r[0].Key() == key)
            && multiset(r) == multiset(items)
  {
    hide WorkerIssue.Key;
    match IndexOf(items, key)
    case None =>
    case Some(i) =>
      assert items == items[..i] + [items[i]] + items[i + 1..];
      SelectNone(items[..i], key);
      SelectSwapped(items[..i], items[i], items[i + 1..], key, true);
      SelectSwapped(items[..i], items[i], items[i + 1..], key, false);
  }
}
