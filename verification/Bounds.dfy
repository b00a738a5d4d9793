/** How often one issue can be executed. */
module Bounds {
  import opened Results
  import opened PySeq
  import opened Issues
  import opened QueueSpec
  import opened Lifecycle
  import opened Conservation

  function Count(items: Items, key: string): nat {
    |Select(items, key, true)|
  }

  /** The executions a fresh detection can lead to. */
  function FullBudget(maxRetries: int): int {
    Max(1, maxRetries + 1)
  }

  /** The executions a key has left: by its attempts if queued, none once processed or in progress. */
  function Budget(st: State, key: string, maxRetries: int): int {
    match IndexOf(st.queue, key)
    case Some(i) => Max(1, maxRetries + 1 - st.queue[i].attempts)
    case None => if key in st.processed || key in st.inProgress then 0 else FullBudget(maxRetries)
  }

  lemma {:induction false} CountOne(issue: WorkerIssue, key: string)
    ensures Count([issue], key) == if issue.Key() == key then 1 else 0
  {
    hide WorkerIssue.Key;
    assert Select([issue][1..], key, true) == [];
  }

  lemma {:induction false} CountConcat(a: Items, b: Items, key: string)
    ensures Count(a + b, key) == Count(a, key) + Count(b, key)
  {
    SelectConcat(a, b, key, true);
  }

  lemma {:induction false} IndexOfAppended(items: Items, item: WorkerIssue, key: string)
    ensures IndexOf(items + [item], key)
         == if IndexOf(items, key).Some? then IndexOf(items, key)
            else if item.Key() == key then Some(|items|) else None
  {
    hide WorkerIssue.Key;
    if items == [] {
      assert [] + [item] == [item];
      assert [item][1..] == [];
    } else {
      assert (items + [item])[1..] == items[1..] + [item];
      IndexOfAppended(items[1..], item, key);
    }
  }

  /** Queueing an unseen item leaves every key's budget as it was. */
  lemma {:induction false} BudgetOfQueued(st: State, item: WorkerIssue, key: string, maxRetries: int)
    requires item.attempts == 0 && !Skips(st, item.Key())
    ensures Budget(Queued(st, [item]), key, maxRetries) == Budget(st, key, maxRetries)
  {
    hide WorkerIssue.Key;
    IndexOfAppended(st.queue, item, key);
  }

  lemma {:induction false} BudgetOfUnseen(st: State, repository: Repository, issues: seq<GitHubIssue>, key: string, maxRetries: int)
    ensures Budget(Queued(st, Unseen(st, repository, issues)), key, maxRetries) == Budget(st, key, maxRetries)
    decreases |issues|
  {
    hide WorkerIssue.Key, Budget;
    if issues == [] {
      assert st.queue + [] == st.queue;
    } else {
      var item := ToWorkerIssue(repository, issues[0]);
      if Ignored(issues[0]) || Skips(st, item.Key()) {
        BudgetOfUnseen(st, repository, issues[1..], key, maxRetries);
      } else {
        BudgetOfQueued(st, item, key, maxRetries);
        BudgetOfUnseen(Queued(st, [item]), repository, issues[1..], key, maxRetries);
        QueuedTwice(st, [item], Unseen(Queued(st, [item]), repository, issues[1..]));
      }
    }
  }

  lemma {:induction false} BudgetOfPoll(st: State, repositories: seq<Repository>, responses: seq<Response>, key: string, maxRetries: int)
    requires |repositories| == |responses|
    ensures Budget(Queued(st, Poll(st, repositories, responses).added), key, maxRetries) == Budget(st, key, maxRetries)
    decreases |responses|
  {
    hide WorkerIssue.Key, Budget, Unseen;
    if responses == [] || responses[0].Raises? {
      assert st.queue + [] == st.queue;
    } else {
      var added := Unseen(st, repositories[0], responses[0].issues);
      BudgetOfUnseen(st, repositories[0], responses[0].issues, key, maxRetries);
      BudgetOfPoll(Queued(st, added), repositories[1..], responses[1..], key, maxRetries);
      QueuedTwice(st, added, Poll(Queued(st, added), repositories[1..], responses[1..]).added);
    }
  }

  lemma {:induction false} IndexOfRemoved(items: Items, i: nat, key: string)
    requires i < |items| && Distinct(items)
    ensures var rest := items[..i] + items[i + 1..];
            if key == items[i].Key() then IndexOf(rest, key) == None
            else IndexOf(rest, key).Some? == IndexOf(items, key).Some?
                 && (IndexOf(rest, key).Some? ==> rest[IndexOf(rest, key).value] == items[IndexOf(items, key).value])
  {
    hide WorkerIssue.Key, IndexOf;
    var rest := items[..i] + items[i + 1..];
    assert forall j :: 0 <= j < |rest| ==> rest[j] == if j < i then items[j] else items[j + 1];
    match IndexOf(items, key)
    case None =>
    case Some(j) =>
      if j != i {
        var j' := if j < i then j else j - 1;
        assert rest[j'].Key() == key;
      }
  }

  /**
   An execution is paid from the key's own budget, and the budgets of other keys stay; an execution that drops its
   key makes a full budget available again, because a later poll may detect the key anew.
  */
  lemma {:induction false} ExecuteBudget(st: State, i: nat, outcome: Outcome, maxRetries: int, now: Timestamp, key: string)
    requires Distinct(st.queue) && i < |st.queue|
    ensures var issue := st.queue[i];
            var after := Execute(st.(queue := st.queue[..i] + st.queue[i + 1..]), issue, outcome, maxRetries, now);
            Count([issue], key) + Budget(after, key, maxRetries)
            <= Budget(st, key, maxRetries)
               + (if issue.Key() == key && Drops(issue, outcome, maxRetries) then FullBudget(maxRetries) else 0)
  {
    hide WorkerIssue.Key, Select;
    var issue, rest := st.queue[i], st.queue[..i] + st.queue[i + 1..];
    CountOne(issue, key);
    IndexOfRemoved(st.queue, i, key);
    IndexOfRemoved(st.queue, i, issue.Key());
    RetryKeepsKey(issue, now);
    IndexOfAppended(rest, Retried(issue, now), key);
    if issue.Key() == key {
      OwnIndex(st.queue, i);
      assert !HasKey(rest, key);
    }
  }

  lemma {:induction false} OwnIndex(items: Items, i: nat)
    requires Distinct(items) && i < |items|
    ensures IndexOf(items, items[i].Key()) == Some(i)
  {
    hide WorkerIssue.Key;
  }

  function DropCount(st: State, repositories: seq<Repository>, maxRetries: int, es: seq<Event>, key: string): nat
    requires EventsFit(repositories, es)
    decreases |es|
  {
    if es == [] then 0
    else
      (if key in Lost(st, repositories, maxRetries, es[0]) then 1 else 0)
      + DropCount(Step(st, repositories, maxRetries, es[0]).next, repositories, maxRetries, es[1..], key)
  }

  lemma {:induction false} StepBudget(st: State, repositories: seq<Repository>, maxRetries: int, e: Event, key: string)
    requires Separate(st) && (e.Tick? ==> |e.responses| == |repositories|)
    ensures var effect := Step(st, repositories, maxRetries, e);
            Count(effect.executed, key) + Budget(effect.next, key, maxRetries)
            <= Budget(st, key, maxRetries)
               + (if key in Lost(st, repositories, maxRetries, e) then FullBudget(maxRetries) else 0)
  {
    hide WorkerIssue.Key, Execute, Poll, Budget, Drops;
    match e
    case Tick(paused, responses, outcome, now) =>
      if !paused {
        BudgetOfPoll(st, repositories, responses, key, maxRetries);
        PollSeparate(st, repositories, responses);
        var polled := Queued(st, Poll(st, repositories, responses).added);
        if polled.queue != [] {
          assert polled.queue[..0] + polled.queue[1..] == polled.queue[1..];
          ExecuteBudget(polled, 0, outcome, maxRetries, now, key);
        }
      }
    case Dispatch(k, outcome, now) =>
      match IndexOf(st.queue, k) {
        case None =>
        case Some(i) => ExecuteBudget(st, i, outcome, maxRetries, now, key);
      }
  }

  /**
   Bounded executions, for every run of ticks and dispatches, raising or not: the executions of a key never exceed
   its budget at the start plus one full budget for each execution that dropped it.
  */
  lemma {:induction false} RunBudget(st: State, repositories: seq<Repository>, maxRetries: int, es: seq<Event>, key: string)
    requires Separate(st) && EventsFit(repositories, es)
    ensures var trace := Run(st, repositories, maxRetries, es);
            Count(trace.executed, key) + Budget(trace.final, key, maxRetries)
            <= Budget(st, key, maxRetries) + FullBudget(maxRetries) * DropCount(st, repositories, maxRetries, es, key)
    decreases |es|
  {
    hide WorkerIssue.Key, Step, Budget, FullBudget, Count, Lost;
    if es == [] {
      assert Count([], key) == 0 by {
        CountConcat([], [], key);
        NothingTwice();
      }
    } else {
      var first := Step(st, repositories, maxRetries, es[0]);
      StepBudget(st, repositories, maxRetries, es[0], key);
      StepConserves(st, repositories, maxRetries, es[0]);
      RunBudget(first.next, repositories, maxRetries, es[1..], key);
      CountConcat(first.executed, Run(first.next, repositories, maxRetries, es[1..]).executed, key);
    }
  }

  lemma {:induction false} NothingTwice()
    ensures var none: Items := []; none + none == none
  {
  }

  lemma {:induction false} BudgetNonNegative(st: State, key: string, maxRetries: int)
    ensures Budget(st, key, maxRetries) >= 0
  {
  }

  /** A scheduler run: an exception ends it, so only its last event may raise. */
  ghost predicate SchedulerRun(st: State, repositories: seq<Repository>, maxRetries: int, es: seq<Event>)
    requires EventsFit(repositories, es)
  {
    es == [] || Quiet(st, repositories, maxRetries, es[..|es| - 1])
  }

  /** In one scheduler run every key stays within the budget it starts with, a raising last event included. */
  lemma {:induction false} SchedulerRunBudget(st: State, repositories: seq<Repository>, maxRetries: int, es: seq<Event>, key: string)
    requires Separate(st) && EventsFit(repositories, es) && SchedulerRun(st, repositories, maxRetries, es)
    ensures Count(Run(st, repositories, maxRetries, es).executed, key) <= Budget(st, key, maxRetries)
    decreases |es|
  {
    hide WorkerIssue.Key, Budget, Count, Step, Lost;
    BudgetNonNegative(st, key, maxRetries);
    if es == [] {
      RunBudget(st, repositories, maxRetries, es, key);
    } else {
      var first := Step(st, repositories, maxRetries, es[0]);
      StepBudget(st, repositories, maxRetries, es[0], key);
      var rest := Run(first.next, repositories, maxRetries, es[1..]);
      CountConcat(first.executed, rest.executed, key);
      if |es| == 1 {
        LastStep(st, repositories, maxRetries, es[0], key);
        CountConcat([], [], key);
        NothingTwice();
        assert rest.executed == [];
      } else {
        assert es[..|es| - 1][1..] == es[1..][..|es| - 2] && es[..|es| - 1][0] == es[0];
        QuietLosesNothing(st, repositories, maxRetries, es[0]);
        StepConserves(st, repositories, maxRetries, es[0]);
        SchedulerRunBudget(first.next, repositories, maxRetries, es[1..], key);
      }
    }
  }

  /** The last event executes a key only if the key has budget, whether or not it then drops it. */
  lemma {:induction false} LastStep(st: State, repositories: seq<Repository>, maxRetries: int, e: Event, key: string)
    requires Separate(st) && (e.Tick? ==> |e.responses| == |repositories|)
    ensures Count(Step(st, repositories, maxRetries, e).executed, key) <= Budget(st, key, maxRetries)
  {
    hide WorkerIssue.Key, Execute, Poll, Drops;
    BudgetNonNegative(st, key, maxRetries);
    match e
    case Tick(paused, responses, outcome, now) =>
      if !paused {
        BudgetOfPoll(st, repositories, responses, key, maxRetries);
        PollSeparate(st, repositories, responses);
        var polled := Queued(st, Poll(st, repositories, responses).added);
        if polled.queue != [] {
          CountOne(polled.queue[0], key);
          OwnIndex(polled.queue, 0);
        }
      }
    case Dispatch(k, outcome, now) =>
      match IndexOf(st.queue, k) {
        case None =>
        case Some(i) =>
          CountOne(st.queue[i], key);
          OwnIndex(st.queue, i);
      }
  }

  const EMPTY: State := State([], {}, map[])

  /** From an empty queue and history, no issue is executed more than maxRetries + 1 times in a scheduler run. */
  lemma {:induction false} FreshRunBudget(repositories: seq<Repository>, maxRetries: nat, es: seq<Event>, key: string)
    requires EventsFit(repositories, es) && SchedulerRun(EMPTY, repositories, maxRetries, es)
    ensures Count(Run(EMPTY, repositories, maxRetries, es).executed, key) <= maxRetries + 1
  {
    SchedulerRunBudget(EMPTY, repositories, maxRetries, es, key);
  }

  /** A poll that lists nothing anywhere. */
  function NothingListed(repositories: seq<Repository>): (r: seq<Response>)
    ensures |r| == |repositories|
  {
    seq(|repositories|, _ => Listed([]))
  }

  lemma {:induction false} NothingPolled(st: State, repositories: seq<Repository>)
    ensures Poll(st, repositories, NothingListed(repositories)) == PollResult([], false)
    ensures Queued(st, []) == st
    decreases |repositories|
  {
    assert st.queue + [] == st.queue;
    if repositories != [] {
      assert NothingListed(repositories)[1..] == NothingListed(repositories[1..]);
      NothingPolled(st, repositories[1..]);
    }
  }

  /** Ticks in which nothing is listed and the controller reports a plain failure. */
  function FailingTicks(repositories: seq<Repository>, n: nat, now: Timestamp): (es: seq<Event>)
    ensures |es| == n && EventsFit(repositories, es)
  {
    seq(n, _ => Tick(false, NothingListed(repositories), Returned(false, "failed"), now))
  }

  /** A failing tick executes the only item; with a retry left it is queued again. */
  lemma {:induction false} FailingTick(issue: WorkerIssue, repositories: seq<Repository>, maxRetries: int, now: Timestamp)
    ensures var effect := Step(State([issue], {}, map[]), repositories, maxRetries,
                               Tick(false, NothingListed(repositories), Returned(false, "failed"), now));
            && effect.executed == [issue]
            && (issue.attempts < maxRetries ==> effect.next == State([Retried(issue, now)], {}, map[]))
            && (issue.attempts >= maxRetries ==> effect.next.queue == [])
  {
    hide WorkerIssue.Key, Poll;
    NothingPolled(State([issue], {}, map[]), repositories);
  }

  /** The bound is reached: an issue that keeps failing is executed exactly as often as its budget says. */
  lemma {:induction false} BudgetReached(issue: WorkerIssue, repositories: seq<Repository>, maxRetries: int, now: Timestamp)
    requires issue.attempts <= maxRetries
    ensures var st := State([issue], {}, map[]);
            Count(Run(st, repositories, maxRetries, FailingTicks(repositories, maxRetries + 1 - issue.attempts, now)).executed, issue.Key())
            == Budget(st, issue.Key(), maxRetries)
    decreases maxRetries - issue.attempts
  {
    hide WorkerIssue.Key, Count, Step;
    var st, n := State([issue], {}, map[]), maxRetries + 1 - issue.attempts;
    var es := FailingTicks(repositories, n, now);
    var first := Step(st, repositories, maxRetries, es[0]);
    var again := Retried(issue, now);
    assert es[1..] == FailingTicks(repositories, n - 1, now);
    FailingTick(issue, repositories, maxRetries, now);
    RetryKeepsKey(issue, now);
    CountOne(issue, issue.Key());
    OwnIndex([issue], 0);
    CountConcat([issue], Run(first.next, repositories, maxRetries, es[1..]).executed, issue.Key());
    if n > 1 {
      BudgetReached(again, repositories, maxRetries, now);
      OwnIndex([again], 0);
    } else {
      CountConcat([], [], issue.Key());
      NothingTwice();
    }
  }

  // ----- a dropped key comes back -----

  /** Ticks whose executions return drop nothing. */
  lemma {:induction false} FailingTicksDropNothing(st: State, repositories: seq<Repository>, maxRetries: int, n: nat, now: Timestamp, key: string)
    ensures DropCount(st, repositories, maxRetries, FailingTicks(repositories, n, now), key) == 0
    decreases n
  {
    hide WorkerIssue.Key, Step, Poll;
    if n > 0 {
      var es := FailingTicks(repositories, n, now);
      assert es[1..] == FailingTicks(repositories, n - 1, now);
      FailingTicksDropNothing(Step(st, repositories, maxRetries, es[0]).next, repositories, maxRetries, n - 1, now, key);
    }
  }

  /** The execution raises with no retry left; the next poll lists the issue again; from then on it fails. */
  function DropAndDetect(repository: Repository, gi: GitHubIssue, maxRetries: nat, now: Timestamp): (es: seq<Event>)
    ensures EventsFit([repository], es)
  {
    [Tick(false, [Listed([])], Raised("error"), now)]
    + ([Tick(false, [Listed([gi])], Returned(false, "failed"), now)] + FailingTicks([repository], maxRetries, now))
  }

  lemma {:induction false} DropTick(issue: WorkerIssue, repository: Repository, maxRetries: nat, now: Timestamp)
    requires issue.attempts == maxRetries
    ensures var st, e := State([issue], {}, map[]), Tick(false, [Listed([])], Raised("error"), now);
            && Step(st, [repository], maxRetries, e) == Effect(EMPTY, [], [issue], true)
            && Lost(st, [repository], maxRetries, e) == {issue.Key()}
  {
    hide WorkerIssue.Key;
    assert [Listed([])] == NothingListed([repository]);
    NothingPolled(State([issue], {}, map[]), [repository]);
    assert {issue.Key()} - {issue.Key()} == {};
  }

  /** Detecting the issue in an empty state and failing is like failing with it queued. */
  lemma {:induction false} DetectTick(repository: Repository, gi: GitHubIssue, maxRetries: nat, now: Timestamp)
    requires !Ignored(gi)
    ensures var issue := ToWorkerIssue(repository, gi);
            var e := Tick(false, [Listed([gi])], Returned(false, "failed"), now);
            var queued := Tick(false, [Listed([])], Returned(false, "failed"), now);
            && Step(EMPTY, [repository], maxRetries, e).executed == [issue]
            && Step(EMPTY, [repository], maxRetries, e).next == Step(State([issue], {}, map[]), [repository], maxRetries, queued).next
            && Lost(EMPTY, [repository], maxRetries, e) == {}
  {
    hide WorkerIssue.Key;
    var issue := ToWorkerIssue(repository, gi);
    assert [Listed([])] == NothingListed([repository]);
    NothingPolled(State([issue], {}, map[]), [repository]);
    assert [gi][1..] == [] && [Listed([gi])][1..] == [];
    assert Unseen(EMPTY, repository, [gi]) == [issue];
    assert Poll(EMPTY, [repository], [Listed([gi])]).added == [issue];
    assert Queued(EMPTY, [issue]) == State([issue], {}, map[]);
  }

  /**
   The budget of a dropped execution is reached too: dropped on its last attempt, detected anew and failing from then
   on, an issue is executed exactly as often as its budget at the start and one full budget allow.
  */
  lemma {:induction false} DropBudgetReached(repository: Repository, gi: GitHubIssue, maxRetries: nat, now: Timestamp)
    requires !Ignored(gi)
    ensures var issue := ToWorkerIssue(repository, gi).(attempts := maxRetries);
            var st, es, key := State([issue], {}, map[]), DropAndDetect(repository, gi, maxRetries, now), issue.Key();
            && DropCount(st, [repository], maxRetries, es, key) == 1
            && Count(Run(st, [repository], maxRetries, es).executed, key) == maxRetries + 2
            && maxRetries + 2 == Budget(st, key, maxRetries) + FullBudget(maxRetries) * DropCount(st, [repository], maxRetries, es, key)
  {
    hide WorkerIssue.Key, Count, Step, Lost;
    var anew := ToWorkerIssue(repository, gi);
    var issue := anew.(attempts := maxRetries);
    var key := issue.Key();
    SameKey(anew, maxRetries);
    var st, es := State([issue], {}, map[]), DropAndDetect(repository, gi, maxRetries, now);
    var rest := es[1..];
    var later := FailingTicks([repository], maxRetries, now);
    assert rest[1..] == later && rest[0] == Tick(false, [Listed([gi])], Returned(false, "failed"), now);
    DropTick(issue, repository, maxRetries, now);
    DetectTick(repository, gi, maxRetries, now);
    var detected := Step(EMPTY, [repository], maxRetries, rest[0]);
    FailingTicksDropNothing(detected.next, [repository], maxRetries, maxRetries, now, key);
    assert DropCount(EMPTY, [repository], maxRetries, rest, key) == 0;
    var all := FailingTicks([repository], maxRetries + 1, now);
    assert [Listed([])] == NothingListed([repository]);
    assert all[0] == Tick(false, [Listed([])], Returned(false, "failed"), now) && all[1..] == later;
    FailingTick(anew, [repository], maxRetries, now);
    assert Run(EMPTY, [repository], maxRetries, rest).executed == Run(State([anew], {}, map[]), [repository], maxRetries, all).executed;
    BudgetReached(anew, [repository], maxRetries, now);
    OwnIndex([anew], 0);
    OwnIndex([issue], 0);
    CountOne(issue, key);
    CountConcat([issue], Run(EMPTY, [repository], maxRetries, rest).executed, key);
  }

  lemma {:induction false} SameKey(issue: WorkerIssue, attempts: nat)
    ensures issue.(attempts := attempts).Key() == issue.Key()
  {
  }
}
