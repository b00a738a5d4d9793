/** Every key a worker ever detects is in exactly one place: queued, executing, or processed. */
module Conservation {
  import opened Issues
  import opened QueueSpec
  import opened Lifecycle

  ghost function Keys(items: Items): set<string> {
    set i | 0 <= i < |items| :: items[i].Key()
  }

  ghost function Known(st: State): set<string> {
    Keys(st.queue) + st.inProgress + st.processed.Keys
  }

  /** No key twice in the queue, and no key in two of the three places. */
  ghost predicate Separate(st: State) {
    && Distinct(st.queue)
    && Keys(st.queue) !! st.inProgress
    && Keys(st.queue) !! st.processed.Keys
    && st.inProgress !! st.processed.Keys
  }

  lemma {:induction false} KeysConcat(a: Items, b: Items)
    ensures Keys(a + b) == Keys(a) + Keys(b)
  {
    hide WorkerIssue.Key;
    forall k | k in Keys(a) + Keys(b)
      ensures k in Keys(a + b)
    {
      if k in Keys(a) {
        var i :| 0 <= i < |a| && a[i].Key() == k;
        assert (a + b)[i].Key() == k;
      } else {
        var i :| 0 <= i < |b| && b[i].Key() == k;
        assert (a + b)[|a| + i].Key() == k;
      }
    }
    forall k | k in Keys(a + b)
      ensures k in Keys(a) + Keys(b)
    {
      var i :| 0 <= i < |a + b| && (a + b)[i].Key() == k;
      if i < |a| {
        assert a[i].Key() == k;
      } else {
        assert b[i - |a|].Key() == k;
      }
    }
  }

  lemma {:induction false} KeysOfOne(item: WorkerIssue)
    ensures Keys([item]) == {item.Key()}
  {
    hide WorkerIssue.Key;
    assert [item][0].Key() in Keys([item]);
  }

  lemma {:induction false} HasKeyIsKeys(items: Items, key: string)
    ensures HasKey(items, key) <==> key in Keys(items)
  {
    hide WorkerIssue.Key;
  }

  /** Appending an item with an unknown key. */
  lemma {:induction false} AppendSeparate(st: State, item: WorkerIssue)
    requires Separate(st) && item.Key() !in Known(st)
    ensures Separate(Queued(st, [item])) && Known(Queued(st, [item])) == Known(st) + {item.Key()}
  {
    hide WorkerIssue.Key;
    KeysConcat(st.queue, [item]);
    KeysOfOne(item);
    forall i | 0 <= i < |st.queue|
      ensures st.queue[i].Key() != item.Key()
    {
      assert st.queue[i].Key() in Keys(st.queue);
    }
  }

  lemma {:induction false} UnseenSeparate(st: State, repository: Repository, issues: seq<GitHubIssue>)
    requires Separate(st)
    ensures var added := Unseen(st, repository, issues);
            && Separate(Queued(st, added))
            && Known(Queued(st, added)) == Known(st) + Keys(added)
            && Keys(added) !! Known(st)
    decreases |issues|
  {
    hide WorkerIssue.Key, ToWorkerIssue, Separate, Known, Keys;
    if issues == [] {
      EmptySeparate(st);
    } else {
      var item := ToWorkerIssue(repository, issues[0]);
      if Ignored(issues[0]) || Skips(st, item.Key()) {
        UnseenSeparate(st, repository, issues[1..]);
      } else {
        var rest := Unseen(Queued(st, [item]), repository, issues[1..]);
        UnskippedUnknown(st, item.Key());
        AppendSeparate(st, item);
        UnseenSeparate(Queued(st, [item]), repository, issues[1..]);
        QueuedTwice(st, [item], rest);
        KeysConcat([item], rest);
        KeysOfOne(item);
      }
    }
  }

  lemma {:induction false} UnskippedUnknown(st: State, key: string)
    ensures Skips(st, key) <==> key in Known(st)
  {
    HasKeyIsKeys(st.queue, key);
  }

  lemma {:induction false} EmptySeparate(st: State)
    requires Separate(st)
    ensures Queued(st, []) == st && Keys([]) == {}
  {
    assert st.queue + [] == st.queue;
  }

  /** Polling detects only unknown keys, each once, and queues all of them. */
  lemma {:induction false} PollSeparate(st: State, repositories: seq<Repository>, responses: seq<Response>)
    requires Separate(st) && |repositories| == |responses|
    ensures var added := Poll(st, repositories, responses).added;
            && Separate(Queued(st, added))
            && Known(Queued(st, added)) == Known(st) + Keys(added)
            && Keys(added) !! Known(st)
    decreases |responses|
  {
    hide WorkerIssue.Key, Separate, Known, Keys;
    if responses == [] || responses[0].Raises? {
      EmptySeparate(st);
    } else {
      var added := Unseen(st, repositories[0], responses[0].issues);
      UnseenSeparate(st, repositories[0], responses[0].issues);
      var rest := Poll(Queued(st, added), repositories[1..], responses[1..]).added;
      PollSeparate(Queued(st, added), repositories[1..], responses[1..]);
      QueuedTwice(st, added, rest);
      KeysConcat(added, rest);
    }
  }

  /** An execution that loses its key: it raised when no retry was left. */
  predicate Drops(issue: WorkerIssue, outcome: Outcome, maxRetries: int) {
    outcome.Raised? && issue.attempts >= maxRetries
  }

  /**
   Executing an issue just taken from the queue: while it runs its key is in progress and nowhere else; a retry
   always finds its place at the tail; afterwards the key is queued or processed, unless the execution drops it.
  */
  lemma {:induction false} ExecuteSeparate(st: State, issue: WorkerIssue, outcome: Outcome, maxRetries: int, now: Timestamp)
    requires Separate(st) && issue.Key() !in Known(st)
    ensures Separate(Begin(st, issue)) && Known(Begin(st, issue)) == Known(st) + {issue.Key()}
    ensures var after := Execute(st, issue, outcome, maxRetries, now);
            && Separate(after)
            && Known(after) == Known(st) + (if Drops(issue, outcome, maxRetries) then {} else {issue.Key()})
            && after.inProgress == st.inProgress
            && after.queue == st.queue + (if Requeues(issue, outcome, maxRetries) then [Retried(issue, now)] else [])
  {
    hide WorkerIssue.Key;
    var key := issue.Key();
    assert Retried(issue, now).Key() == key by {
      RetryKeepsKey(issue, now);
    }
    HasKeyIsKeys(st.queue, key);
    assert st.inProgress + {key} - {key} == st.inProgress;
    if Requeues(issue, outcome, maxRetries) {
      AppendSeparate(st, Retried(issue, now));
      assert Execute(st, issue, outcome, maxRetries, now) == Queued(st, [Retried(issue, now)]);
    } else {
      assert st.queue + [] == st.queue;
    }
  }

  /** Taking the item at index i from the queue: its key is then unknown. */
  lemma {:induction false} TakeSeparate(st: State, i: nat)
    requires Separate(st) && i < |st.queue|
    ensures var rest := st.(queue := st.queue[..i] + st.queue[i + 1..]);
            && Separate(rest)
            && st.queue[i].Key() !in Known(rest)
            && Known(st) == Known(rest) + {st.queue[i].Key()}
  {
    hide WorkerIssue.Key;
    var before, issue, after := st.queue[..i], st.queue[i], st.queue[i + 1..];
    assert st.queue == before + [issue] + after;
    KeysConcat(before + [issue], after);
    KeysConcat(before, [issue]);
    KeysConcat(before, after);
    KeysOfOne(issue);
    assert issue.Key() in Keys(st.queue);
    assert forall j :: 0 <= j < |before| ==> before[j] == st.queue[j];
    assert forall j :: 0 <= j < |after| ==> after[j] == st.queue[j + i + 1];
  }

  /** The key an event loses, if any. */
  function Lost(st: State, repositories: seq<Repository>, maxRetries: int, e: Event): (r: set<string>)
    requires e.Tick? ==> |e.responses| == |repositories|
  {
    var effect := Step(st, repositories, maxRetries, e);
    if effect.executed != [] && Drops(effect.executed[0], e.outcome, maxRetries) then {effect.executed[0].Key()} else {}
  }

  /**
   One event keeps every key in one place: what was known stays known, what a poll detects was unknown and becomes
   known, and only an execution that raises with no retry left loses its key.
  */
  lemma {:induction false} StepConserves(st: State, repositories: seq<Repository>, maxRetries: int, e: Event)
    requires Separate(st) && (e.Tick? ==> |e.responses| == |repositories|)
    ensures var effect := Step(st, repositories, maxRetries, e);
            && Separate(effect.next)
            && Keys(effect.added) !! Known(st)
            && Known(effect.next) == Known(st) + Keys(effect.added) - Lost(st, repositories, maxRetries, e)
            && effect.next.inProgress == st.inProgress
  {
    hide WorkerIssue.Key, Separate, Known, Keys, Execute, Poll, Drops;
    EmptySeparate(st);
    match e
    case Tick(paused, responses, outcome, now) =>
      if !paused {
        PollSeparate(st, repositories, responses);
        var polled := Queued(st, Poll(st, repositories, responses).added);
        if polled.queue != [] {
          TakeSeparate(polled, 0);
          var rest := polled.(queue := polled.queue[1..]);
          assert polled.queue[..0] + polled.queue[1..] == polled.queue[1..];
          ExecuteSeparate(rest, polled.queue[0], outcome, maxRetries, now);
        }
      }
    case Dispatch(key, outcome, now) =>
      match IndexOf(st.queue, key) {
        case None =>
        case Some(i) =>
          TakeSeparate(st, i);
          ExecuteSeparate(st.(queue := Without(st.queue, key)), st.queue[i], outcome, maxRetries, now);
      }
  }

  /** No event of the run raises. */
  ghost predicate Quiet(st: State, repositories: seq<Repository>, maxRetries: int, es: seq<Event>)
    requires EventsFit(repositories, es)
    decreases |es|
  {
    es == [] ||
      var effect := Step(st, repositories, maxRetries, es[0]);
      !effect.raised && Quiet(effect.next, repositories, maxRetries, es[1..])
  }

  /** Over every run in which nothing raises, the known keys are exactly those known at first and those detected. */
  lemma {:induction false} RunConserves(st: State, repositories: seq<Repository>, maxRetries: int, es: seq<Event>)
    requires Separate(st) && EventsFit(repositories, es) && Quiet(st, repositories, maxRetries, es)
    ensures var trace := Run(st, repositories, maxRetries, es);
            Separate(trace.final) && Known(trace.final) == Known(st) + Keys(trace.added)
    decreases |es|
  {
    hide WorkerIssue.Key, Separate, Known, Keys, Step;
    EmptySeparate(st);
    if es != [] {
      StepConserves(st, repositories, maxRetries, es[0]);
      QuietLosesNothing(st, repositories, maxRetries, es[0]);
      var first := Step(st, repositories, maxRetries, es[0]);
      RunConserves(first.next, repositories, maxRetries, es[1..]);
      KeysConcat(first.added, Run(first.next, repositories, maxRetries, es[1..]).added);
    }
  }

  lemma {:induction false} QuietLosesNothing(st: State, repositories: seq<Repository>, maxRetries: int, e: Event)
    requires e.Tick? ==> |e.responses| == |repositories|
    requires !Step(st, repositories, maxRetries, e).raised
    ensures Lost(st, repositories, maxRetries, e) == {}
  {
    hide WorkerIssue.Key, Execute, Poll;
  }
}
