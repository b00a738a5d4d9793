/** In which order issues are executed: nobody is overtaken, and first executions follow detection. */
module Ordering {
  import opened Issues
  import opened QueueSpec
  import opened Lifecycle

  /** A tick that is not paused and whose poll does not raise. */
  predicate Works(st: State, repositories: seq<Repository>, e: Event) {
    e.Tick? && !e.paused && |e.responses| == |repositories| && !Poll(st, repositories, e.responses).raised
  }

  ghost predicate AllWork(st: State, repositories: seq<Repository>, maxRetries: int, es: seq<Event>)
    requires EventsFit(repositories, es)
    decreases |es|
  {
    es == [] || (Works(st, repositories, es[0])
                 && AllWork(Step(st, repositories, maxRetries, es[0]).next, repositories, maxRetries, es[1..]))
  }

  /** What an execution puts back at the tail. */
  function PutBack(st: State, issue: WorkerIssue, outcome: Outcome, maxRetries: int, now: Timestamp): Items {
    var again := Retried(issue, now);
    if Requeues(issue, outcome, maxRetries) && !HasKey(st.queue, again.Key()) then [again] else []
  }

  /** Executed items and queue, read as one tape: a working tick only appends to it, and reads one item of it. */
  lemma {:induction false} TickAppends(st: State, repositories: seq<Repository>, maxRetries: int, e: Event) returns (back: Items)
    requires Works(st, repositories, e)
    ensures var effect := Step(st, repositories, maxRetries, e);
            && effect.executed + effect.next.queue == st.queue + effect.added + back
            && |effect.executed| == (if st.queue + effect.added == [] then 0 else 1)
            && |back| <= 1
            && (forall i :: 0 <= i < |back| ==>
                  effect.executed != [] && back[i] == Retried(effect.executed[0], e.now))
  {
    hide WorkerIssue.Key, Poll;
    var polled := Queued(st, Poll(st, repositories, e.responses).added);
    if polled.queue == [] {
      back := [];
    } else {
      var issue := polled.queue[0];
      back := PutBack(polled.(queue := polled.queue[1..]), issue, e.outcome, maxRetries, e.now);
      assert polled.queue == [issue] + polled.queue[1..];
      assert polled.queue[1..] + [] == polled.queue[1..];
    }
  }

  /**
   No starvation: over working ticks, as long as there were items queued at the start, the executed items are
   exactly the queue's items in order. The item at index i is executed by the tick number i + 1.
  */
  lemma {:induction false} NoStarvation(st: State, repositories: seq<Repository>, maxRetries: int, es: seq<Event>)
    requires EventsFit(repositories, es) && AllWork(st, repositories, maxRetries, es) && |es| <= |st.queue|
    ensures Run(st, repositories, maxRetries, es).executed == st.queue[..|es|]
    decreases |es|
  {
    hide WorkerIssue.Key, Step;
    if es != [] {
      var first := Step(st, repositories, maxRetries, es[0]);
      var back := TickAppends(st, repositories, maxRetries, es[0]);
      var tape := st.queue + first.added + back;
      assert first.executed == [tape[0]] && first.next.queue == tape[1..];
      NoStarvation(first.next, repositories, maxRetries, es[1..]);
      assert tape[1..][..|es| - 1] == st.queue[1..|es|];
      assert st.queue[..|es|] == [st.queue[0]] + st.queue[1..|es|];
    }
  }

  /** The items on their first attempt, in order. */
  function FirstAttempts(items: Items): Items {
    if items == [] then [] else (if items[0].attempts == 0 then [items[0]] else []) + FirstAttempts(items[1..])
  }

  lemma {:induction false} FirstAttemptsConcat(a: Items, b: Items)
    ensures FirstAttempts(a + b) == FirstAttempts(a) + FirstAttempts(b)
  {
    hide WorkerIssue.Key;
    if a == [] {
      assert a + b == b;
    } else {
      assert (a + b)[0] == a[0] && (a + b)[1..] == a[1..] + b;
      FirstAttemptsConcat(a[1..], b);
    }
  }

  lemma {:induction false} NoneFirst()
    ensures FirstAttempts([]) == []
  {
  }

  predicate NonNegative(items: Items) {
    forall i :: 0 <= i < |items| ==> items[i].attempts >= 0
  }

  lemma {:induction false} FirstAttemptsAll(items: Items)
    requires AllFirst(items)
    ensures FirstAttempts(items) == items
  {
    if items != [] {
      FirstAttemptsAll(items[1..]);
    }
  }

  predicate AllFirst(items: Items) {
    forall i :: 0 <= i < |items| ==> items[i].attempts == 0
  }

  lemma {:induction false} AllFirstConcat(a: Items, b: Items)
    requires AllFirst(a) && AllFirst(b)
    ensures AllFirst(a + b)
  {
  }

  lemma {:induction false} UnseenAreFirst(st: State, repository: Repository, issues: seq<GitHubIssue>)
    ensures AllFirst(Unseen(st, repository, issues))
    decreases |issues|
  {
    hide WorkerIssue.Key, Skips;
    if issues != [] {
      var item := ToWorkerIssue(repository, issues[0]);
      UnseenAreFirst(st, repository, issues[1..]);
      UnseenAreFirst(Queued(st, [item]), repository, issues[1..]);
      AllFirstConcat([item], Unseen(Queued(st, [item]), repository, issues[1..]));
    }
  }

  lemma {:induction false} PolledAreFirst(st: State, repositories: seq<Repository>, responses: seq<Response>)
    requires |repositories| == |responses|
    ensures AllFirst(Poll(st, repositories, responses).added)
    decreases |responses|
  {
    hide WorkerIssue.Key, Unseen;
    if responses != [] && responses[0].Listed? {
      var added := Unseen(st, repositories[0], responses[0].issues);
      UnseenAreFirst(st, repositories[0], responses[0].issues);
      PolledAreFirst(Queued(st, added), repositories[1..], responses[1..]);
      AllFirstConcat(added, Poll(Queued(st, added), repositories[1..], responses[1..]).added);
    }
  }

  lemma {:induction false} Regroup(before: Items, added: Items, done: Items, left: Items, later: Items, last: Items, more: Items)
    requires done + left == before + added && later + last == left + more
    ensures (done + later) + last == before + (added + more)
  {
    assert (done + later) + last == done + (later + last) == (done + left) + more;
    assert (before + added) + more == before + (added + more);
  }

  /**
   First executions follow detection order: the first attempts executed, followed by those still queued, are exactly
   the first attempts queued at the start followed by everything the polls detected, in order.
  */
  lemma {:induction false} FirstExecutionsFollowDetection(st: State, repositories: seq<Repository>, maxRetries: int, es: seq<Event>)
    requires EventsFit(repositories, es) && AllWork(st, repositories, maxRetries, es) && NonNegative(st.queue)
    ensures var trace := Run(st, repositories, maxRetries, es);
            FirstAttempts(trace.executed) + FirstAttempts(trace.final.queue) == FirstAttempts(st.queue) + trace.added
    decreases |es|
  {
    hide WorkerIssue.Key, Step, FirstAttempts;
    if es == [] {
      NoneFirst();
      assert [] + FirstAttempts(st.queue) == FirstAttempts(st.queue) + [];
    } else {
      var first := Step(st, repositories, maxRetries, es[0]);
      TickFirsts(st, repositories, maxRetries, es[0]);
      FirstExecutionsFollowDetection(first.next, repositories, maxRetries, es[1..]);
      var rest := Run(first.next, repositories, maxRetries, es[1..]);
      FirstAttemptsConcat(first.executed, rest.executed);
      Regroup(FirstAttempts(st.queue), first.added, FirstAttempts(first.executed), FirstAttempts(first.next.queue),
              FirstAttempts(rest.executed), FirstAttempts(rest.final.queue), rest.added);
    }
  }

  lemma {:induction false} TickFirsts(st: State, repositories: seq<Repository>, maxRetries: int, e: Event)
    requires Works(st, repositories, e) && NonNegative(st.queue)
    ensures var effect := Step(st, repositories, maxRetries, e);
            && NonNegative(effect.next.queue)
            && FirstAttempts(effect.executed) + FirstAttempts(effect.next.queue) == FirstAttempts(st.queue) + effect.added
  {
    hide WorkerIssue.Key, Poll;
    var effect := Step(st, repositories, maxRetries, e);
    assert effect.added == Poll(st, repositories, e.responses).added;
    PolledAreFirst(st, repositories, e.responses);
    FirstAttemptsAll(effect.added);
    var back := TickAppends(st, repositories, maxRetries, e);
    var tape := st.queue + effect.added + back;
    TapeSigns(st, repositories, maxRetries, e, back);
    FirstAttemptsConcat(effect.executed, effect.next.queue);
    FirstAttemptsConcat(st.queue + effect.added, back);
    FirstAttemptsConcat(st.queue, effect.added);
  }

  lemma {:induction false} TapeSigns(st: State, repositories: seq<Repository>, maxRetries: int, e: Event, back: Items)
    requires Works(st, repositories, e) && NonNegative(st.queue)
    requires var effect := Step(st, repositories, maxRetries, e);
             && AllFirst(effect.added)
             && effect.executed + effect.next.queue == st.queue + effect.added + back
             && |effect.executed| <= 1 && |back| <= 1
             && (forall i :: 0 <= i < |back| ==> effect.executed != [] && back[i] == Retried(effect.executed[0], e.now))
    ensures NonNegative(Step(st, repositories, maxRetries, e).next.queue)
    ensures FirstAttempts(back) == []
  {
    hide WorkerIssue.Key, Step;
    var effect := Step(st, repositories, maxRetries, e);
    var tape := st.queue + effect.added + back;
    var queued := st.queue + effect.added;
    assert NonNegative(queued);
    if effect.executed != [] {
      assert effect.executed[0] == tape[0];
      if back != [] {
        assert queued != [];
        assert tape[0] == queued[0];
        assert back[1..] == [];
      }
    }
    forall i | 0 <= i < |effect.next.queue|
      ensures effect.next.queue[i].attempts >= 0
    {
      assert effect.next.queue[i] == tape[i + |effect.executed|];
    }
  }
}
