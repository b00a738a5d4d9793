/** The persistent issue queue: an item list that is written through to its JSON file on every change. */
module Queue {
  import opened Results
  import opened Issues
  import opened QueueSpec

  /** A file holding one JSON document, or nothing yet. It outlives the objects that read and write it. */
  class JsonFile {
    var content: Option<Json>

    constructor (content: Option<Json>)
      ensures this.content == content
    {
      this.content := content;
    }
  }

  lemma {:induction false} IndexOfIs(items: Items, key: string, i: nat)
    requires i < |items| && items[i].Key() == key
    requires forall j :: 0 <= j < i ==> items[j].Key() != key
    ensures IndexOf(items, key) == Some(i)
  {
    hide WorkerIssue.Key;
    match IndexOf(items, key)
    case Some(j) => assert j >= i && i >= j;
    case None =>
  }

  class PersistentIssueQueue {
    const path: JsonFile
    var items: Items

    /** A queue opened on the file now, at any time, would hold the same items in the same order. */
    ghost predicate Saved()
      reads this, path
    {
      forall now: Timestamp :: LoadItems(path.content, now) == Ok(items)
    }

    constructor Holding(path: JsonFile, items: Items)
      ensures this.path == path && this.items == items
    {
      this.path := path;
      this.items := items;
    }

    /** `PersistentIssueQueue(path)`; fails when the file does not hold a queue. */
    static method Open(path: JsonFile, now: Timestamp) returns (r: Result<PersistentIssueQueue, LoadError>)
      ensures r.Ok? <==> LoadItems(path.content, now).Ok?
      ensures r.Err? ==> r.error == LoadItems(path.content, now).error
      ensures r.Ok? ==> fresh(r.value) && r.value.path == path && r.value.items == LoadItems(path.content, now).value
    {
      var loaded := LoadItems(path.content, now);
      if loaded.Err? {
        return Err(loaded.error);
      }
      var q := new PersistentIssueQueue.Holding(path, loaded.value);
      r := Ok(q);
    }

    method Save()
      modifies path
      ensures Saved()
    {
      path.content := Some(QueueToJson(items));
      forall now: Timestamp
        ensures LoadItems(path.content, now) == Ok(items)
      {
        QueueRoundTrip(items, now);
      }
    }

    predicate Contains(key: string)
      reads this
    {
      HasKey(items, key)
    }

    method Enqueue(issue: WorkerIssue) returns (added: bool)
      modifies this, path
      ensures items == Apply(old(items), QueueOp.Enqueue(issue))
      ensures added <==> !HasKey(old(items), issue.Key())
      ensures items == if added then old(items) + [issue] else old(items)
      ensures added || old(Saved()) ==> Saved()
    {
      if Contains(issue.Key()) {
        return false;
      }
      items := items + [issue];
      Save();
      return true;
    }

    method RetryEnqueue(issue: WorkerIssue, now: Timestamp) returns (added: bool)
      modifies this, path
      ensures items == Apply(old(items), QueueOp.RetryEnqueue(issue, now))
      ensures added <==> !HasKey(old(items), issue.Key())
      ensures items == if added then old(items) + [issue.(attempts := issue.attempts + 1, enqueuedAt := now)] else old(items)
      ensures added || old(Saved()) ==> Saved()
    {
      RetryKeepsKey(issue, now);
      hide LoadItems, WorkerIssue.Key;
      added := Enqueue(WorkerIssue(issue.repository, issue.number, issue.title, issue.url, issue.labels,
                                   issue.attempts + 1, now, issue.metadata));
    }

    method Dequeue() returns (r: Option<WorkerIssue>)
      modifies this, path
      ensures items == Apply(old(items), QueueOp.Dequeue)
      ensures r == if old(items) == [] then None else Some(old(items)[0])
      ensures old(items) == (if r.Some? then [r.value] else []) + items
      ensures r.Some? || old(Saved()) ==> Saved()
    {
      if items == [] {
        return None;
      }
      r := Some(items[0]);
      items := items[1..];
      Save();
    }

    method DequeueIssue(key: string) returns (r: Option<WorkerIssue>)
      modifies this, path
      ensures items == Apply(old(items), QueueOp.DequeueIssue(key))
      ensures r.None? ==> items == old(items)
      ensures r.Some? ==> exists i :: 0 <= i < |old(items)| && old(items)[i] == r.value && r.value.Key() == key
                                      && items == old(items)[..i] + old(items)[i + 1..]
      ensures r == match IndexOf(old(items), key) case Some(i) => Some(old(items)[i]) case None => None
      ensures r.Some? || old(Saved()) ==> Saved()
    {
      hide LoadItems, WorkerIssue.Key;
      for index := 0 to |items|
        invariant items == old(items) && path.content == old(path.content)
        invariant forall j :: 0 <= j < index ==> items[j].Key() != key
      {
        if items[index].Key() == key {
          IndexOfIs(items, key, index);
          r := Some(items[index]);
          items := items[..index] + items[index + 1..];
          Save();
          return;
        }
      }
      r := None;
    }

    method Clear() returns (cleared: Items)
      modifies this, path
      ensures items == Apply(old(items), QueueOp.Clear)
      ensures cleared == old(items) && items == [] && Saved()
    {
      cleared := items;
      items := [];
      Save();
    }

    method MoveToFront(key: string) returns (r: Option<WorkerIssue>)
      modifies this, path
      ensures items == Apply(old(items), QueueOp.MoveToFront(key))
      ensures r == match IndexOf(old(items), key) case Some(i) => Some(old(items)[i]) case None => None
      ensures r.Some? || old(Saved()) ==> Saved()
    {
      hide LoadItems, WorkerIssue.Key;
      for index := 0 to |items|
        invariant items == old(items) && path.content == old(path.content)
        invariant forall j :: 0 <= j < index ==> items[j].Key() != key
      {
        if items[index].Key() == key {
          IndexOfIs(items, key, index);
          var matched := items[index];
          items := items[..index] + items[index + 1..];
          items := [matched] + items;
          Save();
          return Some(matched);
        }
      }
      r := None;
    }

    method Perform(op: QueueOp)
      modifies this, path
      ensures items == Apply(old(items), op)
      ensures old(Saved()) ==> Saved()
    {
      match op {
        case Enqueue(issue) => var _ := Enqueue(issue);
        case RetryEnqueue(issue, now) => var _ := RetryEnqueue(issue, now);
        case Dequeue => var _ := Dequeue();
        case DequeueIssue(key) => var _ := DequeueIssue(key);
        case Clear => var _ := Clear();
        case MoveToFront(key) => var _ := MoveToFront(key);
      }
    }
  }

  /** A second queue on the file of a queue that agrees with it. */
  method Reopen(q: PersistentIssueQueue, now: Timestamp) returns (reopened: PersistentIssueQueue)
    requires q.Saved()
    ensures fresh(reopened) && reopened.path == q.path && reopened.items == q.items && reopened.Saved()
  {
    hide LoadItems;
    var r := PersistentIssueQueue.Open(q.path, now);
    assert LoadItems(q.path.content, now) == Ok(q.items);
    reopened := r.value;
  }

  /**
   Restart: after any sequence of operations on a queue opened from a file it agrees with, a second queue opened
   from the same file holds the same items in the same order.
  */
  method OperateAndReopen(q: PersistentIssueQueue, ops: seq<QueueOp>, now: Timestamp) returns (reopened: PersistentIssueQueue)
    requires q.Saved()
    modifies q, q.path
    ensures q.items == ApplyAll(old(q.items), ops)
    ensures fresh(reopened) && reopened.path == q.path && reopened.items == q.items && reopened.Saved()
  {
    hide Apply, PersistentIssueQueue.Saved;
    ghost var start := q.items;
    for i := 0 to |ops|
      invariant q.Saved() && q.items == ApplyAll(start, ops[..i])
    {
      q.Perform(ops[i]);
      assert ops[..i + 1] == ops[..i] + [ops[i]];
      ApplyAllConcat(start, ops[..i], [ops[i]]);
      assert [ops[i]][1..] == [];
    }
    assert ops[..|ops|] == ops;
    reopened := Reopen(q, now);
  }
}
