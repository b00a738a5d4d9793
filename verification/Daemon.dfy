/** The worker daemon: ticks and dispatches on the real queue, history and watcher, and the loop that calls them. */
module Daemon {
  import opened Results
  import opened Issues
  import opened QueueSpec
  import opened Queue
  import opened Lifecycle
  import opened Watcher
  import opened Conservation
  import opened Bounds
  import Clock = Cron

  datatype WorkerStatus = WorkerStatus(currentIssue: Option<string>, processedCount: nat, queuedCount: nat, lastError: Option<string>)

  class WorkerDaemon {
    const queue: PersistentIssueQueue
    const store: ProcessedIssueStore
    const watcher: GitHubIssueWatcher
    const maxRetries: int
    var status: WorkerStatus

    predicate Wired() {
      watcher.queue == queue && watcher.store == store && queue.path != store.path
    }

    constructor (queue: PersistentIssueQueue, store: ProcessedIssueStore, watcher: GitHubIssueWatcher, maxRetries: int)
      requires watcher.queue == queue && watcher.store == store && queue.path != store.path
      ensures Wired() && this.queue == queue && this.store == store && this.watcher == watcher && this.maxRetries == maxRetries
    {
      this.queue := queue;
      this.store := store;
      this.watcher := watcher;
      this.maxRetries := maxRetries;
      status := WorkerStatus(None, 0, 0, None);
    }

    /** Both files agree with memory. */
    ghost predicate Saved()
      reads queue, queue.path, store, store.path
    {
      queue.Saved() && store.Saved()
    }

    /** `_execute_queued_issue`, with try, except and finally; the controller's work ends in the given outcome. */
    method ExecuteQueuedIssue(issue: WorkerIssue, outcome: Outcome, now: Timestamp) returns (raised: bool)
      requires Wired()
      modifies this, watcher, queue, queue.path, store, store.path
      ensures watcher.View() == Execute(old(watcher.View()), issue, outcome, maxRetries, now)
      ensures raised == outcome.Raised?
      ensures old(Saved()) ==> Saved()
      ensures status == old(status).(currentIssue := None,
                                     processedCount := old(status).processedCount
                                       + if outcome.Returned? && outcome.succeeded then 1 else 0)
    {
      hide WorkerIssue.Key, LoadItems, LoadHistory;
      status := status.(currentIssue := Some(issue.Key()));
      watcher.MarkInProgress(issue.Key());
      match outcome {
        case Returned(succeeded, text) =>
          if succeeded {
            store.MarkProcessed(issue.Key(), text);
            status := status.(processedCount := status.processedCount + 1);
          } else if ShouldRetry(text, issue.attempts, maxRetries) {
            var _ := queue.RetryEnqueue(issue, now);
          } else {
            store.MarkProcessed(issue.Key(), text);
          }
        case Raised(_) =>
          if issue.attempts < maxRetries {
            var _ := queue.RetryEnqueue(issue, now);
          }
      }
      watcher.ClearInProgress(issue.Key());
      status := status.(currentIssue := None);
      raised := outcome.Raised?;
    }

    /** `tick` */
    method Tick(paused: bool, responses: seq<Response>, outcome: Outcome, now: Timestamp) returns (executed: Items, raised: bool)
      requires Wired() && |responses| == |watcher.repositories|
      modifies this, watcher, queue, queue.path, store, store.path
      ensures var effect := Step(old(watcher.View()), watcher.repositories, maxRetries, Event.Tick(paused, responses, outcome, now));
              watcher.View() == effect.next && executed == effect.executed && raised == effect.raised
      ensures old(Saved()) ==> Saved()
      ensures status.currentIssue == None || status.currentIssue == old(status).currentIssue
      ensures raised ==> status.lastError.Some?
      ensures !raised ==> status.queuedCount == |queue.items|
      ensures !raised && !paused ==> status.lastError == None
    {
      hide WorkerIssue.Key, LoadItems, LoadHistory, Execute, Lifecycle.Poll;
      executed := [];
      if paused {
        status := status.(queuedCount := |queue.items|);
        return [], false;
      }
      var detected;
      detected, raised := watcher.Poll(responses);
      if raised {
        status := status.(lastError := Some("listing open issues failed"));
        return [], true;
      }
      var issue := queue.Dequeue();
      if issue.Some? {
        executed := [issue.value];
        raised := ExecuteQueuedIssue(issue.value, outcome, now);
        if raised {
          status := status.(lastError := Some(outcome.error));
          return;
        }
      }
      status := status.(queuedCount := |queue.items|, lastError := None);
    }

    /** `dispatch_issue_now`; raises when the key is not queued or its execution raises. */
    method DispatchIssueNow(key: string, outcome: Outcome, now: Timestamp) returns (executed: Items, raised: bool)
      requires Wired()
      modifies this, watcher, queue, queue.path, store, store.path
      ensures var effect := Step(old(watcher.View()), watcher.repositories, maxRetries, Event.Dispatch(key, outcome, now));
              watcher.View() == effect.next && executed == effect.executed && raised == effect.raised
      ensures old(Saved()) ==> Saved()
    {
      hide WorkerIssue.Key, LoadItems, LoadHistory, Execute;
      var issue := queue.DequeueIssue(key);
      if issue.None? {
        return [], true;
      }
      executed := [issue.value];
      raised := ExecuteQueuedIssue(issue.value, outcome, now);
    }
  }

  // ----- the scheduler loop -----

  datatype ScheduleMode = Once | Manual | Interval | Cron | Watch

  datatype Schedule = Schedule(mode: ScheduleMode, cron: Option<string>, interval: int) {
    /** One tick and no waiting. */
    predicate Single() {
      mode.Once? || mode.Manual?
    }

    /** The delay after a tick, or the exception of a cron expression without a usable minute. */
    function Delay(now: Clock.Time): Result<int, Clock.CronError> {
      Clock.NextDelay(mode.Cron?, cron, interval, now)
    }
  }

  predicate TicksOnly(es: seq<Event>) {
    forall i :: 0 <= i < |es| ==> es[i].Tick?
  }

  lemma {:induction false} RunSnoc(st: State, repositories: seq<Repository>, maxRetries: int, es: seq<Event>, e: Event)
    requires EventsFit(repositories, es) && EventsFit(repositories, es + [e]) && (e.Tick? ==> |e.responses| == |repositories|)
    ensures var before := Run(st, repositories, maxRetries, es);
            var last := Step(before.final, repositories, maxRetries, e);
            var all := Run(st, repositories, maxRetries, es + [e]);
            && all == Trace(last.next, before.added + last.added, before.executed + last.executed)
            && (Quiet(st, repositories, maxRetries, es) && !last.raised <==> Quiet(st, repositories, maxRetries, es + [e]))
    decreases |es|
  {
    hide WorkerIssue.Key, Step;
    if es == [] {
      assert [e][1..] == [] && [] + [e] == [e];
      var last := Step(st, repositories, maxRetries, e);
      assert last.added + [] == [] + last.added && last.executed + [] == [] + last.executed;
    } else {
      assert (es + [e])[0] == es[0] && (es + [e])[1..] == es[1..] + [e];
      var first := Step(st, repositories, maxRetries, es[0]);
      RunSnoc(first.next, repositories, maxRetries, es[1..], e);
      var rest := Run(first.next, repositories, maxRetries, es[1..]);
      var last := Step(rest.final, repositories, maxRetries, e);
      assert first.added + (rest.added + last.added) == (first.added + rest.added) + last.added;
      assert first.executed + (rest.executed + last.executed) == (first.executed + rest.executed) + last.executed;
    }
  }

  /**
   `WorkerScheduler.run` on the daemon's tick. The given ticks are what would happen until the run is cancelled, and
   clock(i) is the time at which the delay after the i-th tick is computed. The loop takes one tick in a single-shot
   mode and otherwise all, unless a tick raises or the computation of the delay after it does. Whatever they are, no
   key is executed more often than its budget at the start allows.
  */
  method RunScheduler(daemon: WorkerDaemon, schedule: Schedule, ticks: seq<Event>, clock: nat -> Clock.Time)
    returns (executed: Items, n: nat, raised: bool)
    requires daemon.Wired() && TicksOnly(ticks) && EventsFit(daemon.watcher.repositories, ticks)
    requires schedule.Single() ==> ticks != []
    requires Separate(daemon.watcher.View())
    modifies daemon, daemon.watcher, daemon.queue, daemon.queue.path, daemon.store, daemon.store.path
    ensures n <= |ticks| && (!raised ==> n == if schedule.Single() then 1 else |ticks|)
    ensures EventsFit(daemon.watcher.repositories, ticks[..n])
    ensures var trace := Run(old(daemon.watcher.View()), daemon.watcher.repositories, daemon.maxRetries, ticks[..n]);
            daemon.watcher.View() == trace.final && executed == trace.executed
    ensures SchedulerRun(old(daemon.watcher.View()), daemon.watcher.repositories, daemon.maxRetries, ticks[..n])
    ensures raised <==> || !Quiet(old(daemon.watcher.View()), daemon.watcher.repositories, daemon.maxRetries, ticks[..n])
                        || (n > 0 && !schedule.Single() && schedule.Delay(clock(n - 1)).Err?)
    ensures !schedule.Single() ==> forall i: nat :: i < n - 1 ==> schedule.Delay(clock(i)).Ok?
    ensures forall key :: Count(executed, key) <= Budget(old(daemon.watcher.View()), key, daemon.maxRetries)
    ensures old(daemon.Saved()) ==> daemon.Saved()
  {
    hide WorkerIssue.Key, LoadItems, LoadHistory, Step, Budget, Count, Separate, Schedule.Delay;
    ghost var start := daemon.watcher.View();
    var repositories := daemon.watcher.repositories;
    n, executed, raised := 0, [], false;
    var limit := if schedule.Single() then 1 else |ticks|;
    while n < limit && !raised
      invariant n <= limit && EventsFit(repositories, ticks[..n])
      invariant daemon.watcher.View() == Run(start, repositories, daemon.maxRetries, ticks[..n]).final
      invariant executed == Run(start, repositories, daemon.maxRetries, ticks[..n]).executed
      invariant SchedulerRun(start, repositories, daemon.maxRetries, ticks[..n])
      invariant raised <==> || !Quiet(start, repositories, daemon.maxRetries, ticks[..n])
                            || (n > 0 && !schedule.Single() && schedule.Delay(clock(n - 1)).Err?)
      invariant !schedule.Single() ==> forall i: nat :: i < n - 1 ==> schedule.Delay(clock(i)).Ok?
      invariant old(daemon.Saved()) ==> daemon.Saved()
      decreases limit - n, !raised
    {
      var tick := ticks[n];
      assert ticks[..n + 1] == ticks[..n] + [tick] && ticks[..n + 1][..n] == ticks[..n];
      RunSnoc(start, repositories, daemon.maxRetries, ticks[..n], tick);
      var done;
      done, raised := daemon.Tick(tick.paused, tick.responses, tick.outcome, tick.now);
      executed := executed + done;
      n := n + 1;
      if !raised && !schedule.Single() {
        raised := schedule.Delay(clock(n - 1)).Err?;
      }
    }
    forall key
      ensures Count(executed, key) <= Budget(start, key, daemon.maxRetries)
    {
      SchedulerRunBudget(start, repositories, daemon.maxRetries, ticks[..n], key);
    }
  }

  /** With a cron expression that makes no sense at any time, a run that is not cancelled at once takes one tick and raises. */
  method RunRefused(daemon: WorkerDaemon, expression: string, interval: int, ticks: seq<Event>, clock: nat -> Clock.Time)
    returns (executed: Items, n: nat, raised: bool)
    requires daemon.Wired() && TicksOnly(ticks) && EventsFit(daemon.watcher.repositories, ticks) && ticks != []
    requires Separate(daemon.watcher.View()) && expression != "" && Clock.Refused(expression)
    modifies daemon, daemon.watcher, daemon.queue, daemon.queue.path, daemon.store, daemon.store.path
    ensures raised && n == 1
  {
    hide Step, Budget, Count, Separate, Clock.Refused, Clock.CronDelay;
    Clock.RefusedAlways(expression);
    var schedule := Schedule(Cron, Some(expression), interval);
    forall i: nat
      ensures schedule.Delay(clock(i)).Err?
    {
      assert Clock.CronDelay(expression, clock(i)).Err?;
    }
    executed, n, raised := RunScheduler(daemon, schedule, ticks, clock);
    assert schedule.Delay(clock(0)).Err?;
  }
}
