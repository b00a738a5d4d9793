/** The processed history with its file, and the watcher that polls repositories into the queue. */
module Watcher {
  import opened Results
  import opened Issues
  import opened QueueSpec
  import opened Queue
  import opened Lifecycle

  // ----- the processed history -----

  function HistoryToJson(h: History): Json {
    JObject(map["processed" := JObject(map k | k in h :: JObject(h[k]))])
  }

  function LoadHistory(content: Option<Json>): Result<History, LoadError> {
    match content
    case None => Ok(map[])
    case Some(JObject(f)) =>
      if "processed" !in f then Ok(map[])
      else if !f["processed"].JObject? then Err(BadShape)
      else
        var g := f["processed"].fields;
        if exists k :: k in g && !g[k].JObject? then Err(BadShape)
        else Ok(map k | k in g :: g[k].fields)
    case Some(_) => Err(BadShape)
  }

  /** A saved history loads as the same history. */
  lemma {:induction false} HistoryRoundTrip(h: History)
    ensures LoadHistory(Some(HistoryToJson(h))) == Ok(h)
  {
    var g := map k | k in h :: JObject(h[k]);
    assert (map k | k in g :: g[k].fields) == h;
  }

  class ProcessedIssueStore {
    const path: JsonFile
    var processed: History

    /** A store opened on the file now would hold the same history. */
    ghost predicate Saved()
      reads this, path
    {
      LoadHistory(path.content) == Ok(processed)
    }

    constructor Holding(path: JsonFile, processed: History)
      ensures this.path == path && this.processed == processed
    {
      this.path := path;
      this.processed := processed;
    }

    static method Open(path: JsonFile) returns (r: Result<ProcessedIssueStore, LoadError>)
      ensures r.Ok? <==> LoadHistory(path.content).Ok?
      ensures r.Err? ==> r.error == LoadHistory(path.content).error
      ensures r.Ok? ==> fresh(r.value) && r.value.path == path && r.value.Saved()
    {
      var loaded := LoadHistory(path.content);
      if loaded.Err? {
        return Err(loaded.error);
      }
      var s := new ProcessedIssueStore.Holding(path, loaded.value);
      r := Ok(s);
    }

    predicate Contains(key: string)
      reads this
    {
      key in processed
    }

    method Save()
      modifies path
      ensures Saved()
    {
      path.content := Some(HistoryToJson(processed));
      HistoryRoundTrip(processed);
    }

    method MarkProcessed(key: string, status: string)
      modifies this, path
      ensures processed == old(processed)[key := map["status" := JString(status)]] && Saved()
    {
      processed := processed[key := map["status" := JString(status)]];
      Save();
    }

    method Remove(key: string) returns (removed: bool)
      modifies this, path
      ensures removed <==> key in old(processed)
      ensures processed == old(processed) - {key}
      ensures removed || old(Saved()) ==> Saved()
    {
      if key !in processed {
        assert processed - {key} == processed;
        return false;
      }
      processed := processed - {key};
      Save();
      return true;
    }
  }

  // ----- the watcher -----

  /** One step of the inner loop: what is unseen from here, by whether the next issue is taken. */
  lemma {:induction false} UnseenNext(st: State, repository: Repository, issues: seq<GitHubIssue>, i: nat, before: Items)
    requires i < |issues|
    ensures var item := ToWorkerIssue(repository, issues[i]);
            before + Unseen(st, repository, issues[i..])
            == if Ignored(issues[i]) || Skips(st, item.Key()) then before + Unseen(st, repository, issues[i + 1..])
               else (before + [item]) + Unseen(Queued(st, [item]), repository, issues[i + 1..])
  {
    hide WorkerIssue.Key, ToWorkerIssue;
    var item := ToWorkerIssue(repository, issues[i]);
    assert issues[i..][0] == issues[i] && issues[i..][1..] == issues[i + 1..];
    var rest := Unseen(Queued(st, [item]), repository, issues[i + 1..]);
    assert before + ([item] + rest) == (before + [item]) + rest;
  }

  lemma {:induction false} NothingUnseen(st: State, repository: Repository, issues: seq<GitHubIssue>)
    ensures Unseen(st, repository, issues[|issues|..]) == []
  {
  }

  class GitHubIssueWatcher {
    const queue: PersistentIssueQueue
    const store: ProcessedIssueStore
    const repositories: seq<Repository>
    var inProgress: set<string>

    constructor (queue: PersistentIssueQueue, store: ProcessedIssueStore, repositories: seq<Repository>)
      ensures this.queue == queue && this.store == store && this.repositories == repositories && inProgress == {}
    {
      this.queue := queue;
      this.store := store;
      this.repositories := repositories;
      inProgress := {};
    }

    /** What the watcher, its queue and its store hold. */
    function View(): State
      reads this, queue, store
    {
      State(queue.items, inProgress, store.processed)
    }

    predicate ShouldSkip(key: string)
      reads this, queue, store
      ensures ShouldSkip(key) <==> Skips(View(), key)
    {
      store.Contains(key) || key in inProgress || queue.Contains(key)
    }

    method MarkInProgress(key: string)
      modifies this
      ensures inProgress == old(inProgress) + {key}
    {
      inProgress := inProgress + {key};
    }

    method ClearInProgress(key: string)
      modifies this
      ensures inProgress == old(inProgress) - {key}
    {
      inProgress := inProgress - {key};
    }

    /** The inner loop of `poll`: one repository's open issues. */
    method TakeUnseen(repository: Repository, issues: seq<GitHubIssue>) returns (enqueued: Items)
      modifies queue, queue.path
      ensures enqueued == Unseen(old(View()), repository, issues)
      ensures View() == Queued(old(View()), enqueued)
      ensures old(queue.Saved()) ==> queue.Saved()
    {
      hide WorkerIssue.Key, LoadItems, ToWorkerIssue, Unseen;
      ghost var start := View();
      enqueued := [];
      assert start.queue + [] == start.queue;
      assert issues[0..] == issues;
      for i := 0 to |issues|
        invariant View() == Queued(start, enqueued)
        invariant Unseen(start, repository, issues) == enqueued + Unseen(View(), repository, issues[i..])
        invariant old(queue.Saved()) ==> queue.Saved()
      {
        UnseenNext(View(), repository, issues, i, enqueued);
        if Ignored(issues[i]) {
          continue;
        }
        var item := ToWorkerIssue(repository, issues[i]);
        if ShouldSkip(item.Key()) {
          continue;
        }
        QueuedTwice(start, enqueued, [item]);
        var added := queue.Enqueue(item);
        if added {
          enqueued := enqueued + [item];
        }
      }
      NothingUnseen(View(), repository, issues);
    }

    /** `poll`; a listing that raises ends it, and what was queued before stays queued. */
    method Poll(responses: seq<Response>) returns (enqueued: Items, raised: bool)
      requires |responses| == |repositories|
      modifies queue, queue.path
      ensures PollResult(enqueued, raised) == Lifecycle.Poll(old(View()), repositories, responses)
      ensures View() == Queued(old(View()), enqueued)
      ensures old(queue.Saved()) ==> queue.Saved()
    {
      hide WorkerIssue.Key, LoadItems, Unseen;
      ghost var start := View();
      enqueued := [];
      assert start.queue + [] == start.queue;
      for i := 0 to |repositories|
        invariant View() == Queued(start, enqueued)
        invariant var rest := Lifecycle.Poll(View(), repositories[i..], responses[i..]);
                  Lifecycle.Poll(start, repositories, responses) == PollResult(enqueued + rest.added, rest.raised)
        invariant old(queue.Saved()) ==> queue.Saved()
      {
        assert repositories[i..][1..] == repositories[i + 1..] && responses[i..][1..] == responses[i + 1..];
        if responses[i].Raises? {
          assert enqueued + [] == enqueued;
          return enqueued, true;
        }
        var more := TakeUnseen(repositories[i], responses[i].issues);
        assert start.queue + enqueued + more == start.queue + (enqueued + more);
        ghost var rest := Lifecycle.Poll(View(), repositories[i + 1..], responses[i + 1..]);
        assert enqueued + (more + rest.added) == (enqueued + more) + rest.added;
        enqueued := enqueued + more;
      }
      assert enqueued + [] == enqueued;
      raised := false;
    }
  }
}
