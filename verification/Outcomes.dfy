/** What becomes of an issue after its execution: by outcome, and over the whole run that follows. */
module Outcomes {
  import opened Results
  import opened Issues
  import opened QueueSpec
  import opened Lifecycle
  import opened Conservation

  /** The queue an event executes from: what was there and what its poll added. */
  function Waiting(st: State, repositories: seq<Repository>, maxRetries: int, e: Event): Items
    requires e.Tick? ==> |e.responses| == |repositories|
  {
    st.queue + Step(st, repositories, maxRetries, e).added
  }

  /** The one item at this place is taken out, and the others stay in order. */
  ghost predicate Taken(waiting: Items, item: WorkerIssue, i: nat, rest: Items) {
    i < |waiting| && waiting[i] == item && rest == waiting[..i] + waiting[i + 1..]
  }

  /** An event that executes an item takes it from the queue, the first one in a tick, the named one in a dispatch. */
  lemma {:induction false} Executes(st: State, repositories: seq<Repository>, maxRetries: int, e: Event) returns (i: nat, rest: State)
    requires Separate(st) && (e.Tick? ==> |e.responses| == |repositories|)
    requires Step(st, repositories, maxRetries, e).executed != []
    ensures var effect := Step(st, repositories, maxRetries, e);
            var item := effect.executed[0];
            && effect.executed == [item]
            && Taken(Waiting(st, repositories, maxRetries, e), item, i, rest.queue)
            && (if e.Tick? then i == 0 else item.Key() == e.key)
            && rest.inProgress == st.inProgress && rest.processed == st.processed
            && Separate(rest) && item.Key() !in Known(rest)
            && effect.next == Execute(rest, item, e.outcome, maxRetries, e.now)
  {
    hide WorkerIssue.Key, Separate, Known, Execute, Poll;
    match e
    case Tick(_, responses, _, _) =>
      PollSeparate(st, repositories, responses);
      var polled := Queued(st, Poll(st, repositories, responses).added);
      i, rest := 0, polled.(queue := polled.queue[1..]);
      TakeSeparate(polled, 0);
      assert polled.queue[..0] + polled.queue[1..] == polled.queue[1..];
    case Dispatch(key, _, _) =>
      i := IndexOf(st.queue, key).value;
      rest := st.(queue := Without(st.queue, key));
      TakeSeparate(st, i);
      assert st.queue + [] == st.queue;
  }

  /**
   What an event executes: a tick the first waiting item, unless it is paused, its poll raises or nothing waits; a
   dispatch the item with its key, if there is one. A paused tick does nothing at all, a poll that raises keeps what it
   had queued, and a dispatch without its item raises and changes nothing.
  */
  lemma {:induction false} ExecutesExactly(st: State, repositories: seq<Repository>, maxRetries: int, e: Event)
    requires e.Tick? ==> |e.responses| == |repositories|
    ensures var effect := Step(st, repositories, maxRetries, e);
            match e
            case Tick(paused, responses, _, _) =>
              var raising := exists q :: 0 <= q < |responses| && responses[q].Raises?;
              && (effect.executed == [] <==> paused || raising || Waiting(st, repositories, maxRetries, e) == [])
              && (paused ==> effect.next == st && effect.added == [] && !effect.raised)
              && (effect.executed == [] ==> effect.next == st.(queue := st.queue + effect.added) && (effect.raised <==> raising && !paused))
            case Dispatch(key, _, _) =>
              && effect.added == []
              && (effect.executed == [] <==> forall i :: 0 <= i < |st.queue| ==> st.queue[i].Key() != key)
              && (effect.executed == [] ==> effect.next == st && effect.raised)
  {
    hide WorkerIssue.Key, Execute, Poll;
    assert st.queue + [] == st.queue;
    if e.Tick? {
      PollRaises(st, repositories, e.responses);
    }
  }

  lemma {:induction false} PollRaises(st: State, repositories: seq<Repository>, responses: seq<Response>)
    requires |repositories| == |responses|
    ensures Poll(st, repositories, responses).raised <==> exists q :: 0 <= q < |responses| && responses[q].Raises?
    decreases |responses|
  {
    hide Unseen;
    if responses != [] {
      if responses[0].Listed? {
        PollRaises(Queued(st, Unseen(st, repositories[0], responses[0].issues)), repositories[1..], responses[1..]);
      }
      assert forall q :: 0 < q < |responses| ==> responses[q] == responses[1..][q - 1];
    }
  }

  /**
   How one execution ends, by its outcome alone. A success is processed with exactly its status. A failure that returns
   is queued again, as the last item and with one more attempt, exactly when the item has been retried fewer times than
   allowed and the status is neither "retry_or_escalate" nor "escalated", and is otherwise processed with its status. An
   exception is never processed: the item is queued again while it may be retried, and is dropped otherwise. The rest of
   the queue keeps its order, and nothing else is processed.
  */
  lemma {:induction false} OutcomeDecides(st: State, repositories: seq<Repository>, maxRetries: int, e: Event) returns (i: nat, rest: Items)
    requires Separate(st) && (e.Tick? ==> |e.responses| == |repositories|)
    requires Step(st, repositories, maxRetries, e).executed != []
    ensures var effect := Step(st, repositories, maxRetries, e);
            var item, next := effect.executed[0], effect.next;
            var again := match e.outcome
              case Returned(true, _) => false
              case Returned(false, status) => item.attempts < maxRetries && status != "retry_or_escalate" && status != "escalated"
              case Raised(_) => item.attempts < maxRetries;
            && Taken(Waiting(st, repositories, maxRetries, e), item, i, rest)
            && (if e.Tick? then i == 0 else item.Key() == e.key)
            && next.queue == rest + (if again then [item.(attempts := item.attempts + 1, enqueuedAt := e.now)] else [])
            && (item.Key() in Keys(next.queue) <==> again)
            && next.processed == (if e.outcome.Raised? || again then st.processed
                                  else st.processed[item.Key() := map["status" := JString(e.outcome.status)]])
            && next.inProgress == st.inProgress && (effect.raised <==> e.outcome.Raised?)
  {
    hide WorkerIssue.Key, Separate, Known, Keys, Poll;
    var state: State;
    i, state := Executes(st, repositories, maxRetries, e);
    rest := state.queue;
    var item := Step(st, repositories, maxRetries, e).executed[0];
    ExecuteSeparate(state, item, e.outcome, maxRetries, e.now);
    assert Retried(item, e.now).Key() == item.Key() by {
      RetryKeepsKey(item, e.now);
    }
    KeysConcat(rest, [Retried(item, e.now)]);
    KeysOfOne(Retried(item, e.now));
    KnownQueued(state, item.Key());
    assert rest + [] == rest;
  }

  lemma {:induction false} KnownQueued(st: State, key: string)
    ensures key in Keys(st.queue) ==> key in Known(st)
  {
    hide Keys;
  }

  // ----- after a success -----

  /** Whatever an event does, a processed key is neither polled nor executed, and keeps its record. */
  lemma {:induction false} ProcessedStays(st: State, repositories: seq<Repository>, maxRetries: int, e: Event, key: string)
    requires Separate(st) && key in st.processed && (e.Tick? ==> |e.responses| == |repositories|)
    ensures var effect := Step(st, repositories, maxRetries, e);
            && key in effect.next.processed && effect.next.processed[key] == st.processed[key]
            && (forall j :: 0 <= j < |effect.executed| ==> effect.executed[j].Key() != key)
            && key !in Keys(effect.added)
  {
    hide WorkerIssue.Key, Separate, Keys, Poll, Execute, Step;
    StepConserves(st, repositories, maxRetries, e);
    var effect := Step(st, repositories, maxRetries, e);
    assert key in Known(st);
    if effect.executed != [] {
      var i, rest := Executes(st, repositories, maxRetries, e);
      var item := effect.executed[0];
      assert key in Known(rest);
      ExecutedAlone(rest, item, e.outcome, maxRetries, e.now, key);
    } else {
      NothingExecuted(st, repositories, maxRetries, e);
    }
  }

  lemma {:induction false} NothingExecuted(st: State, repositories: seq<Repository>, maxRetries: int, e: Event)
    requires e.Tick? ==> |e.responses| == |repositories|
    requires Step(st, repositories, maxRetries, e).executed == []
    ensures Step(st, repositories, maxRetries, e).next == Queued(st, Step(st, repositories, maxRetries, e).added)
  {
    hide Poll, Execute;
    assert st.queue + [] == st.queue;
  }

  lemma {:induction false} ExecutedAlone(st: State, issue: WorkerIssue, outcome: Outcome, maxRetries: int, now: Timestamp, key: string)
    requires key in st.processed && issue.Key() != key
    ensures var after := Execute(st, issue, outcome, maxRetries, now);
            key in after.processed && after.processed[key] == st.processed[key]
  {
    hide WorkerIssue.Key;
  }

  /** Over a whole run: a processed key is never polled or executed again, and keeps its record to the end. */
  lemma {:induction false} ProcessedForGood(st: State, repositories: seq<Repository>, maxRetries: int, es: seq<Event>, key: string)
    requires Separate(st) && key in st.processed && EventsFit(repositories, es)
    ensures var trace := Run(st, repositories, maxRetries, es);
            && key in trace.final.processed && trace.final.processed[key] == st.processed[key]
            && (forall j :: 0 <= j < |trace.executed| ==> trace.executed[j].Key() != key)
            && (forall j :: 0 <= j < |trace.added| ==> trace.added[j].Key() != key)
    decreases |es|
  {
    hide WorkerIssue.Key, Separate, Step;
    if es != [] {
      var first := Step(st, repositories, maxRetries, es[0]);
      StepConserves(st, repositories, maxRetries, es[0]);
      ProcessedStays(st, repositories, maxRetries, es[0], key);
      ProcessedForGood(first.next, repositories, maxRetries, es[1..], key);
      assert forall j :: 0 <= j < |first.added| ==> first.added[j].Key() in Keys(first.added);
    }
  }

  /**
   An issue whose execution succeeded is done: whatever is polled, dispatched or raised in the run after it, the issue is
   never polled or executed again, and the history holds the status it succeeded with.
  */
  lemma {:induction false} SuccessIsFinal(st: State, repositories: seq<Repository>, maxRetries: int, e: Event, later: seq<Event>)
    requires Separate(st) && (e.Tick? ==> |e.responses| == |repositories|) && EventsFit(repositories, later)
    requires Step(st, repositories, maxRetries, e).executed != [] && e.outcome.Returned? && e.outcome.succeeded
    ensures var effect := Step(st, repositories, maxRetries, e);
            var key, trace := effect.executed[0].Key(), Run(effect.next, repositories, maxRetries, later);
            && key in trace.final.processed && trace.final.processed[key] == map["status" := JString(e.outcome.status)]
            && (forall j :: 0 <= j < |trace.executed| ==> trace.executed[j].Key() != key)
            && (forall j :: 0 <= j < |trace.added| ==> trace.added[j].Key() != key)
  {
    hide WorkerIssue.Key, Separate, Step, Run, Taken;
    var _, _ := OutcomeDecides(st, repositories, maxRetries, e);
    StepConserves(st, repositories, maxRetries, e);
    var effect := Step(st, repositories, maxRetries, e);
    ProcessedForGood(effect.next, repositories, maxRetries, later, effect.executed[0].Key());
  }
}
