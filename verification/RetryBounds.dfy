/** The two retry levels together: pipeline runs within an execution, executions within a scheduler run. */
module RetryBounds {
  import opened Results
  import opened Issues
  import opened QueueSpec
  import opened Lifecycle
  import opened Conservation
  import opened Bounds
  import opened Git
  import opened Controller

  /** What one execution meets: the checkout it starts from and everything outside the controller. */
  datatype Job = Job(start: Session, around: Surroundings, completion: Completion, fault: nat -> bool)

  function JobRuns(job: Job, maxRetries: int): nat {
    RunsOf(job.start, job.around, maxRetries, job.completion, job.fault)
  }

  /** What the daemon sees of an execution. */
  function JobOutcome(job: Job, maxRetries: int): Lifecycle.Outcome {
    var status := Ending(job.start, job.around, maxRetries, job.completion, job.fault).1;
    Returned(Succeeded(status), status)
  }

  /** The pipeline runs made for a key, when the i-th execution makes runs(i). */
  function TotalRuns(executed: Items, runs: nat -> nat, key: string): nat
    decreases |executed|
  {
    if executed == [] then 0
    else
      var n := |executed| - 1;
      TotalRuns(executed[..n], runs, key) + if executed[n].Key() == key then runs(n) else 0
  }

  /** With the same number of runs in every execution, or at most that many, the total is that many per execution. */
  lemma {:induction false} TotalRunsByCount(executed: Items, runs: nat -> nat, key: string, c: nat)
    requires forall i: nat :: runs(i) <= c
    ensures TotalRuns(executed, runs, key) <= c * Count(executed, key)
    ensures (forall i: nat :: runs(i) == c) ==> TotalRuns(executed, runs, key) == c * Count(executed, key)
    decreases |executed|
  {
    hide WorkerIssue.Key, Count;
    if executed == [] {
      CountConcat([], [], key);
      NothingTwice();
    } else {
      var n := |executed| - 1;
      TotalRunsByCount(executed[..n], runs, key, c);
      CountSnoc(executed, key);
      Distributes(c, Count(executed[..n], key));
    }
  }

  lemma {:induction false} CountSnoc(executed: Items, key: string)
    requires executed != []
    ensures var n := |executed| - 1;
            Count(executed, key) == Count(executed[..n], key) + if executed[n].Key() == key then 1 else 0
  {
    hide WorkerIssue.Key, Count;
    var n := |executed| - 1;
    assert executed == executed[..n] + [executed[n]];
    CountConcat(executed[..n], [executed[n]], key);
    CountOne(executed[n], key);
  }

  lemma {:induction false} Distributes(c: nat, k: nat)
    ensures c * (k + 1) == c * k + c
  {
  }

  lemma {:induction false} JobRunsBound(job: Job, maxRetries: nat)
    ensures JobRuns(job, maxRetries) <= maxRetries + 1
  {
    RunsExact(job.around.attempts, maxRetries, Runs(job.around.attempts, 0, maxRetries));
  }

  /**
   In one scheduler run, whatever is polled, however executions end and whatever they meet: the pipeline is run for
   a key at most maxRetries + 1 times for each execution in its budget.
  */
  lemma {:induction false} PipelineRunsBudget(st: State, repositories: seq<Repository>, maxRetries: nat, es: seq<Event>, jobs: nat -> Job, key: string)
    requires Separate(st) && EventsFit(repositories, es) && SchedulerRun(st, repositories, maxRetries, es)
    ensures TotalRuns(Run(st, repositories, maxRetries, es).executed, i => JobRuns(jobs(i), maxRetries), key)
         <= (maxRetries + 1) * Budget(st, key, maxRetries)
  {
    hide WorkerIssue.Key, Budget, Count, TotalRuns, JobRuns, Separate;
    var executed := Run(st, repositories, maxRetries, es).executed;
    var runs: nat -> nat := i => JobRuns(jobs(i), maxRetries);
    forall i: nat
      ensures runs(i) <= maxRetries + 1
    {
      JobRunsBound(jobs(i), maxRetries);
    }
    TotalRunsByCount(executed, runs, key, maxRetries + 1);
    SchedulerRunBudget(st, repositories, maxRetries, es, key);
    Scaled(maxRetries + 1, Count(executed, key), Budget(st, key, maxRetries));
  }

  lemma {:induction false} Scaled(c: nat, a: int, b: int)
    requires a <= b
    ensures c * a <= c * b
  {
  }

  /** From an empty queue and history that is (maxRetries + 1) squared. */
  lemma {:induction false} PipelineRunsSquared(repositories: seq<Repository>, maxRetries: nat, es: seq<Event>, jobs: nat -> Job, key: string)
    requires EventsFit(repositories, es) && SchedulerRun(EMPTY, repositories, maxRetries, es)
    ensures TotalRuns(Run(EMPTY, repositories, maxRetries, es).executed, i => JobRuns(jobs(i), maxRetries), key)
         <= (maxRetries + 1) * (maxRetries + 1)
  {
    hide WorkerIssue.Key, TotalRuns, JobRuns;
    PipelineRunsBudget(EMPTY, repositories, maxRetries, es, jobs, key);
  }

  /** Pipeline runs that change nothing until the last one raises. */
  function Stubborn(maxRetries: nat, left: Repo): nat -> Attempt {
    k => if k < maxRetries then Produced([], true, left) else AttemptRaises(left)
  }

  lemma {:induction false} StubbornRuns(maxRetries: nat, left: Repo)
    ensures Runs(Stubborn(maxRetries, left), 0, maxRetries) == maxRetries + 1
    ensures LoopFiles(Stubborn(maxRetries, left), maxRetries) == None
  {
    RunsExact(Stubborn(maxRetries, left), maxRetries, maxRetries + 1);
  }

  /** The square is reached by an issue whose runs change nothing and whose last run always raises. */
  lemma {:induction false} SquareReached(issue: WorkerIssue, maxRetries: nat, now: Timestamp, job: Job, left: Repo)
    requires issue.attempts == 0
    requires Prepared(job.start, job.around, job.completion, job.fault).Some?
    requires job.around.attempts == Stubborn(maxRetries, left)
    ensures var es := FailingTicks([], maxRetries + 1, now);
            && (forall i :: 0 <= i < |es| ==> es[i].outcome == JobOutcome(job, maxRetries))
            && TotalRuns(Run(State([issue], {}, map[]), [], maxRetries, es).executed, _ => JobRuns(job, maxRetries), issue.Key())
               == (maxRetries + 1) * (maxRetries + 1)
  {
    hide WorkerIssue.Key, Count, TotalRuns, Runs, LoopFiles, Prepared, Complete;
    StubbornRuns(maxRetries, left);
    assert JobOutcome(job, maxRetries) == Returned(false, "failed");
    BudgetReached(issue, [], maxRetries, now);
    OwnIndex([issue], 0);
    var executed := Run(State([issue], {}, map[]), [], maxRetries, FailingTicks([], maxRetries + 1, now)).executed;
    var runs: nat -> nat := _ => JobRuns(job, maxRetries);
    TotalRunsByCount(executed, runs, issue.Key(), maxRetries + 1);
  }

  /**
   An issue whose runs never change anything is escalated after maxRetries + 1 runs of its one execution: the daemon
   records it and does not queue it again.
  */
  lemma {:induction false} NoChangesRunOnce(st: State, issue: WorkerIssue, maxRetries: nat, now: Timestamp, job: Job)
    requires Prepared(job.start, job.around, job.completion, job.fault).Some? && job.around.refreshedAgain.Some?
    requires forall k: nat :: Fruitless(job.around.attempts(k))
    ensures JobRuns(job, maxRetries) == maxRetries + 1
    ensures var after := Lifecycle.Execute(st, issue, JobOutcome(job, maxRetries), maxRetries, now);
            && after.queue == st.queue
            && after.processed == st.processed[issue.Key() := map["status" := JString("escalated")]]
  {
    hide WorkerIssue.Key, Prepared, Complete;
    RunsExact(job.around.attempts, maxRetries, maxRetries + 1);
  }
}
